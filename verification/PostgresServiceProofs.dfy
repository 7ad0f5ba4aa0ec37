/**
 * Every run of the service over PostgreSQL is a run of the service over the event-store contract: an append
 * takes effect at its COMMIT or at the read that finds the conflict, and nothing else can be told from outside.
 */
module PostgresServiceProofs {
  import opened Domain
  import opened EventLog
  import P = PostgresAppend
  import R = PostgresRuns
  import L = PostgresLoad
  import S = Service
  import I = ServiceInvariants
  import Proofs = ServiceProofs
  import Runs = ServiceRuns
  import opened PostgresService

  // ---------------------------------------------------------------- the run that an observer sees

  /** An operation as the contract sees it: past its append as soon as that is decided. */
  ghost function AbstractOp(s: State, o: nat): S.Op
    requires o in s.ops
  {
    if Awaits(s, o) && Decided(s.pg.txs[s.calls[o]]) then Answered(s.ops[o], s.pg.txs[s.calls[o]]) else s.ops[o]
  }

  ghost function Abstract(s: State): S.State {
    S.State(LogNow(s), map o | o in s.ops :: AbstractOp(s, o), s.facts)
  }

  /** The fault that the contract's append meets when a transaction is decided like this. */
  function FaultOf(tx: P.Tx): S.Fault
    requires Decided(tx)
  {
    match ReplyOf(tx)
    case Appended => S.NoFault
    case Conflict(_) => S.NoFault
    case Failed(e) =>
      if tx.applied then S.FailsAfter
      else if e == BadEvent then S.ValidatesFirst
      else if e == StreamTooLarge then S.BoundExceeded
      else S.FailsBefore
  }

  function Outcome(o: nat, tx: P.Tx): S.Action
    requires Decided(tx)
  {
    S.Advance(o, S.Env(0, [], [], [], FaultOf(tx)))
  }

  /** The one step of the contract in which transaction `t` of operation `o` is decided, if it is now. */
  function Decision(before: P.State, after: P.State, o: nat, t: P.TxId): seq<S.Action> {
    if t in after.txs && Decided(after.txs[t]) && !(t in before.txs && Decided(before.txs[t])) then
      [Outcome(o, after.txs[t])]
    else []
  }

  /** What the contract's run does at an action: one step, or nothing. */
  ghost function Visible(setup: Setup, s: State, a: Action): seq<S.Action> {
    var after := Apply(setup, s, a).pg;
    match a
    case Begin(o, request) => [S.Begin(o, request)]
    case Die(_) => []
    case Move(o, env, rows) => if Moves(setup, s, o, env, rows) then [S.Advance(o, env)] else []
    case Send(o, t) => Decision(s.pg, after, o, t)
    case Database(b) => if b.t in s.owners then Decision(s.pg, after, s.owners[b.t], b.t) else []
    case Receive(_) => []
    case Report(_) => []
  }

  ghost function VisibleRun(setup: Setup, actions: seq<Action>): seq<S.Action> {
    if actions == [] then []
    else
      var init := actions[..|actions| - 1];
      VisibleRun(setup, init) + Visible(setup, Run(setup, init), actions[|actions| - 1])
  }

  // ---------------------------------------------------------------- what every action keeps

  /** The transaction carries the append that its operation waits at, sent no earlier than it was decided on. */
  ghost predicate AskedBy(op: S.Op, tx: P.Tx) {
    S.Appends(op.pc) && op.committed.None? && tx.id == op.pc.event.continuationId &&
    tx.expected == S.ExpectedVersion(op.pc) && tx.batch == [op.pc.event] &&
    op.pc.event.version == tx.expected + 1 && 0 <= tx.expected <= 1 && tx.expected <= tx.floor
  }

  ghost predicate CallsFit(s: State) {
    forall o | o in s.calls :: Awaits(s, o) && AskedBy(s.ops[o], s.pg.txs[s.calls[o]]) &&
      s.calls[o] in s.owners && s.owners[s.calls[o]] == o
  }

  ghost predicate OwnersFit(s: State) {
    forall t | t in s.pg.txs :: t in s.owners && s.pg.txs[t].expected <= s.pg.txs[t].floor &&
      (!Decided(s.pg.txs[t]) ==> s.owners[t] in s.calls && s.calls[s.owners[t]] == t)
  }

  ghost predicate WithinBound(setup: Setup, tables: P.Tables) {
    forall id :: P.HeadOf(tables, id) <= setup.maxEvents
  }

  ghost predicate Inv(setup: Setup, s: State) {
    P.Inv(setup.maxEvents, s.pg) && WithinBound(setup, s.pg.tables) && I.Inv(setup.cfg, Abstract(s)) &&
    CallsFit(s) && OwnersFit(s)
  }

  // ---------------------------------------------------------------- loads

  lemma StepReadsItsStream(cfg: S.Config, log: Log, log': Log, o: nat, op: S.Op, env: S.Env)
    requires !S.Appends(op.pc)
    requires Loads(op) && !S.Fails(env.fault) ==>
      Stream(log, op.request.continuationId) == Stream(log', op.request.continuationId)
    ensures S.Step(cfg, log, o, op, env) == S.Step(cfg, log', o, op, env)
    ensures S.Step(cfg, log, o, op, env).append.None?
  {
    Runs.StepShape(cfg, log, o, op, env);
    match op.pc
    case Start =>
    case Reload(_) =>
    case ReloadExpired =>
    case _ =>
  }

  lemma StepOnIsStep(setup: Setup, s: State, o: nat, op: S.Op, env: S.Env, rows: seq<L.Row>)
    requires P.GoodTables(s.pg.tables) && WithinBound(setup, s.pg.tables) && setup.maxEvents <= MAX_SAFE
    requires !S.Appends(op.pc) && RowsFit(setup, s, op, env, rows)
    ensures StepOn(setup, o, op, env, rows) == S.Step(setup.cfg, LogNow(s), o, op, env)
    ensures S.Step(setup.cfg, LogNow(s), o, op, env).append.None?
  {
    if Loads(op) && !S.Fails(env.fault) {
      var id := op.request.continuationId;
      L.LoadReturnsTheStream(s.pg.tables, id, setup.maxEvents, rows);
      StepReadsItsStream(setup.cfg, LogNow(s), LogWith(id, Stream(LogNow(s), id)), o, op, env);
    } else {
      StepReadsItsStream(setup.cfg, LogNow(s), map[], o, op, env);
    }
  }

  // ---------------------------------------------------------------- decisions

  /** What a decision says about the log before and after it. */
  ghost predicate DecisionFits(before: Log, after: Log, tx: P.Tx)
    requires Decided(tx)
  {
    match ReplyOf(tx)
    case Appended => tx.applied && CompareAndAppend(before, tx.id, tx.expected, tx.batch) == Stored(after)
    case Conflict(actual) =>
      after == before && !tx.applied && actual == |Stream(before, tx.id)| && actual != tx.expected
    case Failed(e) =>
      if tx.applied then
        e == StoreFailed && CompareAndAppend(before, tx.id, tx.expected, tx.batch) == Stored(after)
      else
        after == before &&
        (e == StoreFailed || e == StreamTooLarge || (e == BadEvent && |tx.batch| == 1 && !Storable(tx.batch[0])))
  }

  /** A decision is exactly the contract's append, with the fault that explains the answer. */
  lemma DecisionIsAStep(cfg: S.Config, before: Log, after: Log, o: nat, op: S.Op, tx: P.Tx)
    requires AskedBy(op, tx) && Decided(tx) && DecisionFits(before, after, tx)
    ensures S.Step(cfg, before, o, op, Outcome(o, tx).env) ==
      S.Effect(if tx.applied then Some(op.pc.event) else None, Answered(op, tx), None)
    ensures after == if tx.applied then Extend(before, tx.id, tx.batch) else before
  {
  }

  /** An undecided transaction that asked for one event from a version it had seen. */
  ghost predicate InFlight(s: P.State, t: P.TxId) {
    t in s.txs && !Decided(s.txs[t]) && |s.txs[t].batch| == 1 && s.txs[t].expected <= s.txs[t].floor
  }

  /** The action is the COMMIT, told to the caller or not. */
  predicate CommitsNow(pc: P.Pc, a: P.Action) {
    (pc.Commit? && a.Advance?) || (P.MayCommit(pc) && a.LoseCommitAnswer? && a.committed)
  }

  lemma CommitDecides(maxEvents: int, s: P.State, t: P.TxId, a: P.Action)
    requires P.Inv(maxEvents, s) && InFlight(s, t) && CommitsNow(s.txs[t].pc, a) && a.t == t
    ensures var s' := P.Apply(maxEvents, s, a);
      P.GoodTables(s'.tables) && t in s'.txs && Decided(s'.txs[t]) &&
      DecisionFits(P.LogOf(s.tables), P.LogOf(s'.tables), s'.txs[t])
  {
    var reply := if a.Advance? then P.Appended else P.Failed(StoreFailed);
    R.CommittingTx(maxEvents, s, t);
    R.CommitIsOneAppend(s.tables, s.txs[t]);
    CommitIs(maxEvents, s, t, a, reply);
    CommitFitsItsReply(s, t, reply);
  }

  lemma CommitIs(maxEvents: int, s: P.State, t: P.TxId, a: P.Action, reply: P.Reply)
    requires t in s.txs && CommitsNow(s.txs[t].pc, a) && a.t == t
    requires reply == if a.Advance? then P.Appended else P.Failed(StoreFailed)
    ensures P.Apply(maxEvents, s, a) == P.AfterCommit(s, t, reply)
  {
  }

  lemma CommitFitsItsReply(s: P.State, t: P.TxId, reply: P.Reply)
    requires t in s.txs && P.GoodTables(s.tables) && P.GoodTables(P.CommitTables(s.tables, s.txs[t]))
    requires reply == P.Appended || reply == P.Failed(StoreFailed)
    requires CompareAndAppend(P.LogOf(s.tables), s.txs[t].id, s.txs[t].expected, s.txs[t].batch) ==
      Stored(P.LogOf(P.CommitTables(s.tables, s.txs[t])))
    ensures var s' := P.AfterCommit(s, t, reply);
      s'.tables == P.CommitTables(s.tables, s.txs[t]) && t in s'.txs && Decided(s'.txs[t]) &&
      DecisionFits(P.LogOf(s.tables), P.LogOf(s'.tables), s'.txs[t])
  {
  }

  lemma OtherActionDecides(maxEvents: int, s: P.State, t: P.TxId, a: P.Action)
    requires P.GoodTables(s.tables) && InFlight(s, t) && P.TxFits(maxEvents, s, t, s.txs[t]) && !a.Call? && a.t == t
    requires !CommitsNow(s.txs[t].pc, a)
    ensures var s' := P.Apply(maxEvents, s, a);
      s'.tables == s.tables && t in s'.txs &&
      (Decided(s'.txs[t]) ==> DecisionFits(P.LogOf(s.tables), P.LogOf(s.tables), s'.txs[t]))
  {
    match a
    case Advance(_) => StatementDecides(maxEvents, s, t);
    case _ =>
  }

  lemma StatementDecides(maxEvents: int, s: P.State, t: P.TxId)
    requires P.GoodTables(s.tables) && InFlight(s, t) && P.TxFits(maxEvents, s, t, s.txs[t]) && !s.txs[t].pc.Commit?
    ensures var s' := P.Statement(s, t);
      s'.tables == s.tables && t in s'.txs &&
      (Decided(s'.txs[t]) ==> DecisionFits(P.LogOf(s.tables), P.LogOf(s.tables), s'.txs[t]))
  {
    match s.txs[t].pc
    case InsertHead =>
    case Fence =>
    case FenceWait =>
    case ReadActual(_) =>
      var id := s.txs[t].id;
      assert |Stream(P.LogOf(s.tables), id)| == P.HeadOf(s.tables, id);
    case _ =>
  }

  /** A statement either leaves its transaction undecided and the log alone, or decides as the contract would. */
  ghost predicate Decides(maxEvents: int, s: P.State, a: P.Action)
    requires P.GoodTables(s.tables)
  {
    var s' := P.Apply(maxEvents, s, a);
    P.GoodTables(s'.tables) && a.t in s.txs && a.t in s'.txs && R.SameCall(s.txs[a.t], s'.txs[a.t]) &&
    if Decided(s'.txs[a.t]) then DecisionFits(P.LogOf(s.tables), P.LogOf(s'.tables), s'.txs[a.t])
    else s'.tables == s.tables
  }

  /** Whatever decides a transaction, its answer is what the contract's append would have said. */
  lemma DatabaseDecides(maxEvents: int, s: P.State, a: P.Action)
    requires P.Inv(maxEvents, s) && InFlight(s, a.t) && !a.Call?
    ensures Decides(maxEvents, s, a)
  {
    R.AppliedOnce(maxEvents, s, a, a.t);
    if CommitsNow(s.txs[a.t].pc, a) {
      CommitDecides(maxEvents, s, a.t, a);
    } else {
      assert P.TxFits(maxEvents, s, a.t, s.txs[a.t]);
      OtherActionDecides(maxEvents, s, a.t, a);
    }
  }

  lemma DecidedStays(maxEvents: int, s: P.State, t: P.TxId, a: P.Action)
    requires t in s.txs && Decided(s.txs[t]) && a.t == t
    ensures var s' := P.Apply(maxEvents, s, a);
      s'.tables == s.tables && t in s'.txs && Decided(s'.txs[t]) &&
      ReplyOf(s'.txs[t]) == ReplyOf(s.txs[t]) && s'.txs[t].applied == s.txs[t].applied
  {
  }

  lemma OthersStay(maxEvents: int, s: P.State, u: P.TxId, a: P.Action)
    requires u != a.t
    ensures var s' := P.Apply(maxEvents, s, a);
      (u in s'.txs <==> u in s.txs) && (u in s.txs ==> s'.txs[u] == s.txs[u])
  {
  }

  /** An append is turned away before its first statement only for the bound or for what its event is. */
  lemma CallDecides(maxEvents: int, s: P.State, t: P.TxId, id: Id, expected: int, e: Event)
    requires P.GoodTables(s.tables) && t !in s.txs && e.continuationId == id && e.version == expected + 1
    requires 0 <= expected <= 1
    ensures var s' := P.Apply(maxEvents, s, P.Call(t, id, expected, [e]));
      s'.tables == s.tables && t in s'.txs && s'.txs[t].id == id && s'.txs[t].expected == expected &&
      s'.txs[t].batch == [e] && s'.txs[t].floor == P.HeadOf(s.tables, id) &&
      (Decided(s'.txs[t]) ==> DecisionFits(P.LogOf(s.tables), P.LogOf(s.tables), s'.txs[t]))
  {
    assert [e][1..] == [];
    assert BatchError(id, expected, [e]) == if Storable(e) then BatchError(id, expected + 1, []) else Some(BadEvent);
  }

  // ---------------------------------------------------------------- every action is visible as zero or one steps

  ghost predicate LooksTheSame(s: State, s': State, p: nat) {
    p in s.ops && p in s'.ops && AbstractOp(s', p) == AbstractOp(s, p)
  }

  lemma AbstractMoves(setup: Setup, s: State, s': State, o: nat, env: S.Env, e: S.Effect)
    requires o in s.ops && AbstractOp(s, o) == s.ops[o] && e == S.Step(setup.cfg, LogNow(s), o, s.ops[o], env)
    requires s'.ops.Keys == s.ops.Keys && AbstractOp(s', o) == e.op
    requires forall p | p in s.ops && p != o :: LooksTheSame(s, s', p)
    requires LogNow(s') ==
      if e.append.Some? then Extend(LogNow(s), e.append.value.continuationId, [e.append.value]) else LogNow(s)
    requires s'.facts == if e.fact.Some? then s.facts + [e.fact.value] else s.facts
    ensures Abstract(s') == S.Apply(setup.cfg, Abstract(s), S.Advance(o, env))
  {
    OnlyOneMoves(s, s', o);
    assert Abstract(s).ops[o] == s.ops[o];
  }

  lemma OnlyOneMoves(s: State, s': State, o: nat)
    requires o in s.ops && s'.ops.Keys == s.ops.Keys
    requires forall p | p in s.ops && p != o :: LooksTheSame(s, s', p)
    ensures Abstract(s').ops == Abstract(s).ops[o := AbstractOp(s', o)]
  {
    forall p | p in s.ops && p != o ensures Abstract(s').ops[p] == Abstract(s).ops[p] {
      assert LooksTheSame(s, s', p);
    }
  }

  lemma BeginRefines(setup: Setup, s: State, o: nat, request: S.Request)
    requires o in s.calls ==> o in s.ops
    ensures Abstract(Apply(setup, s, Begin(o, request))) == S.Apply(setup.cfg, Abstract(s), S.Begin(o, request))
  {
    var s' := Apply(setup, s, Begin(o, request));
    if o !in s.ops {
      forall p | p in s.ops ensures LooksTheSame(s, s', p) {
      }
      assert AbstractOp(s', o) == s'.ops[o];
      assert Abstract(s').ops == Abstract(s).ops[o := s'.ops[o]] by {
        forall p | p in s.ops ensures Abstract(s').ops[p] == Abstract(s).ops[p] {
          assert LooksTheSame(s, s', p);
        }
      }
    }
  }

  lemma MoveRefines(setup: Setup, s: State, o: nat, env: S.Env, rows: seq<L.Row>)
    requires P.GoodTables(s.pg.tables) && WithinBound(setup, s.pg.tables) && setup.maxEvents <= MAX_SAFE
    requires Moves(setup, s, o, env, rows)
    ensures Abstract(Apply(setup, s, Move(o, env, rows))) == S.Apply(setup.cfg, Abstract(s), S.Advance(o, env))
  {
    var s' := Apply(setup, s, Move(o, env, rows));
    var e := StepOn(setup, o, s.ops[o], env, rows);
    StepOnIsStep(setup, s, o, s.ops[o], env, rows);
    AbstractMoves(setup, s, s', o, env, e);
  }

  lemma DecisionRefines(setup: Setup, s: State, s': State, o: nat, t: P.TxId)
    requires o in s.ops && AbstractOp(s, o) == s.ops[o] && s'.ops == s.ops && s'.facts == s.facts
    requires Awaits(s', o) && s'.calls[o] == t && Decided(s'.pg.txs[t]) && AskedBy(s.ops[o], s'.pg.txs[t])
    requires DecisionFits(LogNow(s), LogNow(s'), s'.pg.txs[t])
    requires forall p | p in s.ops && p != o :: LooksTheSame(s, s', p)
    ensures Abstract(s') == S.Apply(setup.cfg, Abstract(s), Outcome(o, s'.pg.txs[t]))
  {
    var tx := s'.pg.txs[t];
    var env := Outcome(o, tx).env;
    DecisionIsAStep(setup.cfg, LogNow(s), LogNow(s'), o, s.ops[o], tx);
    AbstractMoves(setup, s, s', o, env, S.Step(setup.cfg, LogNow(s), o, s.ops[o], env));
  }

  lemma NothingVisible(s: State, s': State)
    requires s'.ops.Keys == s.ops.Keys && s'.facts == s.facts && LogNow(s') == LogNow(s)
    requires forall p | p in s.ops :: LooksTheSame(s, s', p)
    ensures Abstract(s') == Abstract(s)
  {
    forall p | p in s.ops ensures Abstract(s').ops[p] == Abstract(s).ops[p] {
      assert LooksTheSame(s, s', p);
    }
    assert Abstract(s').ops == Abstract(s).ops;
  }

  /** An operation at its append has committed nothing, and has seen the version that it expects. */
  ghost predicate MayAppend(log: Log, op: S.Op) {
    S.Appends(op.pc) && op.committed.None? && op.pc.event.version == S.ExpectedVersion(op.pc) + 1 &&
    0 <= S.ExpectedVersion(op.pc) <= 1 && S.ExpectedVersion(op.pc) <= |Stream(log, op.pc.event.continuationId)|
  }

  lemma WaitingAppend(cfg: S.Config, log: Log, op: S.Op)
    requires I.GoodLog(log) && I.OpFits(cfg, log, op) && S.Appends(op.pc)
    ensures MayAppend(log, op)
  {
    if !op.request.Create? {
      Proofs.ClosingEvent(cfg, op, Stream(log, op.request.continuationId), op.pc.pending, op.pc.event);
    }
  }

  /** Actions on one transaction leave the answers of the others alone. */
  lemma OthersLookTheSame(setup: Setup, s: State, s': State, a: P.Action, p: nat)
    requires p in s.ops && s'.ops == s.ops && s'.pg == P.Apply(setup.maxEvents, s.pg, a)
    requires (p in s.calls <==> p in s'.calls) && (p in s.calls ==> s'.calls[p] == s.calls[p] && s.calls[p] != a.t)
    ensures LooksTheSame(s, s', p)
  {
    if p in s.calls { OthersStay(setup.maxEvents, s.pg, s.calls[p], a); }
  }

  ghost predicate Plays(setup: Setup, s: State, a: Action) {
    Abstract(Apply(setup, s, a)) == Runs.ApplyAll(setup.cfg, Abstract(s), Visible(setup, s, a))
  }

  lemma OneStep(setup: Setup, s: State, a: Action, b: S.Action)
    requires Visible(setup, s, a) == [b] && Abstract(Apply(setup, s, a)) == S.Apply(setup.cfg, Abstract(s), b)
    ensures Plays(setup, s, a)
  {
    var s1 := S.Apply(setup.cfg, Abstract(s), b);
    assert [b][1..] == [];
    assert Runs.ApplyAll(setup.cfg, s1, []) == s1;
  }

  lemma OpsFit(setup: Setup, s: State, o: nat)
    requires I.Inv(setup.cfg, Abstract(s)) && o in s.ops && AbstractOp(s, o) == s.ops[o]
    ensures I.GoodLog(LogNow(s)) && I.OpFits(setup.cfg, LogNow(s), s.ops[o])
  {
    assert Abstract(s).ops[o] == s.ops[o];
  }

  lemma SendAsks(setup: Setup, s: State, o: nat, t: P.TxId)
    requires P.GoodTables(s.pg.tables) && Sends(s, o, t) && MayAppend(LogNow(s), s.ops[o])
    ensures var s' := Apply(setup, s, Send(o, t));
      s'.pg.tables == s.pg.tables && t in s'.pg.txs && AskedBy(s.ops[o], s'.pg.txs[t]) &&
      (Decided(s'.pg.txs[t]) ==> DecisionFits(LogNow(s), LogNow(s'), s'.pg.txs[t]))
  {
    var op := s.ops[o];
    CallDecides(setup.maxEvents, s.pg, t, op.pc.event.continuationId, S.ExpectedVersion(op.pc), op.pc.event);
  }

  lemma SendRefines(setup: Setup, s: State, o: nat, t: P.TxId)
    requires CallsFit(s) && Sends(s, o, t)
    requires var s' := Apply(setup, s, Send(o, t));
      s'.pg.tables == s.pg.tables && t in s'.pg.txs && AskedBy(s.ops[o], s'.pg.txs[t]) &&
      (Decided(s'.pg.txs[t]) ==> DecisionFits(LogNow(s), LogNow(s'), s'.pg.txs[t]))
    ensures Plays(setup, s, Send(o, t))
  {
    var event := s.ops[o].pc.event;
    var call := P.Call(t, event.continuationId, S.ExpectedVersion(s.ops[o].pc), [event]);
    var s' := Apply(setup, s, Send(o, t));
    forall p | p in s.ops && p != o ensures LooksTheSame(s, s', p) {
      OthersLookTheSame(setup, s, s', call, p);
    }
    if Decided(s'.pg.txs[t]) {
      DecisionRefines(setup, s, s', o, t);
      OneStep(setup, s, Send(o, t), Outcome(o, s'.pg.txs[t]));
    } else {
      assert LooksTheSame(s, s', o);
      NothingVisible(s, s');
    }
  }

  lemma ReceiveRefines(setup: Setup, s: State, o: nat)
    ensures Plays(setup, s, Receive(o))
  {
    var s' := Apply(setup, s, Receive(o));
    if s' != s {
      forall p | p in s.ops ensures LooksTheSame(s, s', p) {
      }
      NothingVisible(s, s');
    }
  }

  lemma DecidedOpLooksTheSame(setup: Setup, s: State, s': State, a: P.Action, p: nat)
    requires p in s.ops && s'.ops == s.ops && s'.calls == s.calls && s'.pg == P.Apply(setup.maxEvents, s.pg, a)
    requires a.t in s.pg.txs && Decided(s.pg.txs[a.t])
    ensures LooksTheSame(s, s', p)
  {
    if p in s.calls && s.calls[p] == a.t {
      DecidedStays(setup.maxEvents, s.pg, a.t, a);
    } else {
      OthersLookTheSame(setup, s, s', a, p);
    }
  }

  lemma LateStatementRefines(setup: Setup, s: State, a: P.Action)
    requires !a.Call? && a.t in s.pg.txs && Decided(s.pg.txs[a.t])
    ensures Plays(setup, s, Database(a))
  {
    var s' := Apply(setup, s, Database(a));
    DecidedStays(setup.maxEvents, s.pg, a.t, a);
    forall p | p in s.ops ensures LooksTheSame(s, s', p) {
      DecidedOpLooksTheSame(setup, s, s', a, p);
    }
    NothingVisible(s, s');
  }

  lemma SameQuestion(setup: Setup, s: State, a: P.Action)
    requires a.t in s.pg.txs
    ensures var s' := P.Apply(setup.maxEvents, s.pg, a);
      a.t in s'.txs && R.SameCall(s.pg.txs[a.t], s'.txs[a.t])
  {
    R.AppliedOnce(setup.maxEvents, s.pg, a, a.t);
  }

  lemma BystandersLookTheSame(setup: Setup, s: State, a: P.Action, p: nat)
    requires CallsFit(s) && !a.Call? && a.t in s.owners && p in s.ops && p != s.owners[a.t]
    ensures LooksTheSame(s, Apply(setup, s, Database(a)), p)
  {
    if p in s.calls { assert s.owners[s.calls[p]] == p; }
    OthersLookTheSame(setup, s, Apply(setup, s, Database(a)), a, p);
  }

  /** A statement of a transaction that is undecided before it. */
  ghost predicate Undecided(s: State, a: P.Action, o: nat) {
    !a.Call? && a.t in s.owners && s.owners[a.t] == o && Awaits(s, o) && s.calls[o] == a.t &&
    AskedBy(s.ops[o], s.pg.txs[a.t]) && !Decided(s.pg.txs[a.t])
  }

  lemma DecidingRefines(setup: Setup, s: State, a: P.Action, o: nat)
    requires CallsFit(s) && Undecided(s, a, o)
    requires var s' := Apply(setup, s, Database(a));
      a.t in s'.pg.txs && AskedBy(s.ops[o], s'.pg.txs[a.t]) && Decided(s'.pg.txs[a.t]) &&
      DecisionFits(LogNow(s), LogNow(s'), s'.pg.txs[a.t])
    ensures Plays(setup, s, Database(a))
  {
    var s' := Apply(setup, s, Database(a));
    forall p | p in s.ops && p != o ensures LooksTheSame(s, s', p) {
      BystandersLookTheSame(setup, s, a, p);
    }
    DecisionRefines(setup, s, s', o, a.t);
    OneStep(setup, s, Database(a), Outcome(o, s'.pg.txs[a.t]));
  }

  lemma UndecidedRefines(setup: Setup, s: State, a: P.Action, o: nat)
    requires CallsFit(s) && Undecided(s, a, o)
    requires var s' := Apply(setup, s, Database(a));
      a.t in s'.pg.txs && !Decided(s'.pg.txs[a.t]) && LogNow(s') == LogNow(s)
    ensures Plays(setup, s, Database(a))
  {
    var s' := Apply(setup, s, Database(a));
    forall p | p in s.ops ensures LooksTheSame(s, s', p) {
      if p != o { BystandersLookTheSame(setup, s, a, p); }
    }
    NothingVisible(s, s');
  }

  lemma UndecidedIsInFlight(s: State, t: P.TxId)
    requires CallsFit(s) && OwnersFit(s) && t in s.pg.txs && !Decided(s.pg.txs[t])
    ensures InFlight(s.pg, t)
  {
    assert AskedBy(s.ops[s.owners[t]], s.pg.txs[t]);
  }

  lemma StatementRefines(setup: Setup, s: State, a: P.Action)
    requires CallsFit(s) && OwnersFit(s) && P.GoodTables(s.pg.tables) && Decides(setup.maxEvents, s.pg, a)
    requires !a.Call? && a.t in s.pg.txs && !Decided(s.pg.txs[a.t])
    ensures Plays(setup, s, Database(a))
  {
    var o := s.owners[a.t];
    assert Undecided(s, a, o);
    if Decided(Apply(setup, s, Database(a)).pg.txs[a.t]) {
      DecidingRefines(setup, s, a, o);
    } else {
      UndecidedRefines(setup, s, a, o);
    }
  }

  lemma DatabaseRefines(setup: Setup, s: State, a: P.Action)
    requires P.Inv(setup.maxEvents, s.pg) && CallsFit(s) && OwnersFit(s)
    ensures Plays(setup, s, Database(a))
  {
    if a.Call? || a.t !in s.pg.txs {
      assert Apply(setup, s, Database(a)) == s;
    } else if Decided(s.pg.txs[a.t]) {
      LateStatementRefines(setup, s, a);
    } else {
      UndecidedIsInFlight(s, a.t);
      DatabaseDecides(setup.maxEvents, s.pg, a);
      StatementRefines(setup, s, a);
    }
  }

  /** What a send asks for, if the action is one that sends. */
  ghost predicate SendFits(setup: Setup, s: State, a: Action) {
    a.Send? && Sends(s, a.o, a.t) ==>
      var s' := Apply(setup, s, a);
      s'.pg.tables == s.pg.tables && a.t in s'.pg.txs && AskedBy(s.ops[a.o], s'.pg.txs[a.t]) &&
      (Decided(s'.pg.txs[a.t]) ==> DecisionFits(LogNow(s), LogNow(s'), s'.pg.txs[a.t]))
  }

  lemma SendAlwaysFits(setup: Setup, s: State, a: Action)
    requires Inv(setup, s)
    ensures SendFits(setup, s, a)
  {
    if a.Send? && Sends(s, a.o, a.t) {
      OpsFit(setup, s, a.o);
      WaitingAppend(setup.cfg, LogNow(s), s.ops[a.o]);
      SendAsks(setup, s, a.o, a.t);
    }
  }

  lemma ActionRefines(setup: Setup, s: State, a: Action)
    requires P.Inv(setup.maxEvents, s.pg) && WithinBound(setup, s.pg.tables) && CallsFit(s) && OwnersFit(s)
    requires SendFits(setup, s, a) && setup.maxEvents <= MAX_SAFE
    ensures Plays(setup, s, a)
  {
    match a
    case Send(o, t) =>
      if Sends(s, o, t) { SendRefines(setup, s, o, t); }
    case Database(b) => DatabaseRefines(setup, s, b);
    case Receive(o) => ReceiveRefines(setup, s, o);
    case _ => LocalActionRefines(setup, s, a);
  }

  /** The actions that send nothing and receive no answer to an append. */
  lemma LocalActionRefines(setup: Setup, s: State, a: Action)
    requires P.GoodTables(s.pg.tables) && WithinBound(setup, s.pg.tables) && setup.maxEvents <= MAX_SAFE
    requires CallsFit(s) && (a.Begin? || a.Die? || a.Move? || a.Report?)
    ensures Plays(setup, s, a)
  {
    match a
    case Begin(o, request) =>
      BeginRefines(setup, s, o, request);
      OneStep(setup, s, a, S.Begin(o, request));
    case Move(o, env, rows) =>
      if Moves(setup, s, o, env, rows) {
        MoveRefines(setup, s, o, env, rows);
        OneStep(setup, s, a, S.Advance(o, env));
      }
    case _ => NothingVisible(s, Apply(setup, s, a));
  }

  // ---------------------------------------------------------------- every action keeps the invariant

  lemma PlaysKeepsServiceInv(cfg: S.Config, s: S.State, more: seq<S.Action>)
    requires I.Inv(cfg, s) && |more| <= 1
    ensures I.Inv(cfg, Runs.ApplyAll(cfg, s, more))
  {
    if more != [] {
      Runs.ApplyKeepsInv(cfg, s, more[0]);
      assert more[1..] == [];
    }
  }

  lemma StoreKeepsBound(setup: Setup, s: P.State, a: P.Action)
    requires P.Inv(setup.maxEvents, s) && WithinBound(setup, s.tables)
    ensures WithinBound(setup, P.Apply(setup.maxEvents, s, a).tables)
  {
    forall id ensures P.HeadOf(P.Apply(setup.maxEvents, s, a).tables, id) <= setup.maxEvents {
      R.ApplyKeepsBound(setup.maxEvents, s, a, id);
    }
  }

  lemma DatabaseKeepsCalls(setup: Setup, s: State, a: P.Action)
    requires CallsFit(s) && OwnersFit(s)
    ensures CallsFit(Apply(setup, s, Database(a))) && OwnersFit(Apply(setup, s, Database(a)))
  {
    var s' := Apply(setup, s, Database(a));
    if !a.Call? {
      forall t ensures (t in s'.pg.txs <==> t in s.pg.txs) &&
        (t in s.pg.txs ==> R.SameCall(s.pg.txs[t], s'.pg.txs[t]) && (Decided(s.pg.txs[t]) ==> Decided(s'.pg.txs[t])))
      {
        if t != a.t {
          OthersStay(setup.maxEvents, s.pg, t, a);
        } else if t in s.pg.txs {
          SameQuestion(setup, s, a);
          if Decided(s.pg.txs[t]) { DecidedStays(setup.maxEvents, s.pg, t, a); }
        }
      }
    }
  }

  lemma SendKeepsCalls(setup: Setup, s: State, o: nat, t: P.TxId)
    requires CallsFit(s) && OwnersFit(s) && Sends(s, o, t)
    requires var s' := Apply(setup, s, Send(o, t)); t in s'.pg.txs && AskedBy(s.ops[o], s'.pg.txs[t])
    ensures CallsFit(Apply(setup, s, Send(o, t))) && OwnersFit(Apply(setup, s, Send(o, t)))
  {
  }

  lemma ReceiveKeepsCalls(setup: Setup, s: State, o: nat)
    requires CallsFit(s) && OwnersFit(s)
    ensures CallsFit(Apply(setup, s, Receive(o))) && OwnersFit(Apply(setup, s, Receive(o)))
  {
    var s' := Apply(setup, s, Receive(o));
    if s' != s {
      forall t | t in s.pg.txs && !Decided(s.pg.txs[t])
        ensures s.owners[t] in s'.calls && s'.calls[s.owners[t]] == t
      {
        assert s.calls[s.owners[t]] == t && s.owners[t] != o;
      }
    }
  }

  lemma ApplyKeepsCalls(setup: Setup, s: State, a: Action)
    requires CallsFit(s) && OwnersFit(s) && SendFits(setup, s, a)
    ensures CallsFit(Apply(setup, s, a)) && OwnersFit(Apply(setup, s, a))
  {
    match a
    case Send(o, t) =>
      if Sends(s, o, t) { SendKeepsCalls(setup, s, o, t); }
    case Database(b) => DatabaseKeepsCalls(setup, s, b);
    case Receive(o) => ReceiveKeepsCalls(setup, s, o);
    case _ =>
  }

  lemma StoreKeepsInv(setup: Setup, s: State, a: Action)
    requires P.Inv(setup.maxEvents, s.pg) && WithinBound(setup, s.pg.tables)
    ensures P.Inv(setup.maxEvents, Apply(setup, s, a).pg) && WithinBound(setup, Apply(setup, s, a).pg.tables)
  {
    match a
    case Send(o, t) =>
      if Sends(s, o, t) {
        var event := s.ops[o].pc.event;
        var call := P.Call(t, event.continuationId, S.ExpectedVersion(s.ops[o].pc), [event]);
        R.ApplyKeepsInv(setup.maxEvents, s.pg, call);
        StoreKeepsBound(setup, s.pg, call);
      }
    case Database(b) =>
      R.ApplyKeepsInv(setup.maxEvents, s.pg, b);
      StoreKeepsBound(setup, s.pg, b);
    case _ =>
  }

  /** One action keeps the invariant, and the contract's run does what the action makes visible. */
  lemma ApplyKeepsInv(setup: Setup, s: State, a: Action)
    requires Inv(setup, s) && setup.maxEvents <= MAX_SAFE
    ensures Inv(setup, Apply(setup, s, a)) && Plays(setup, s, a)
  {
    SendAlwaysFits(setup, s, a);
    ActionRefines(setup, s, a);
    PlaysKeepsServiceInv(setup.cfg, Abstract(s), Visible(setup, s, a));
    StoreKeepsInv(setup, s, a);
    ApplyKeepsCalls(setup, s, a);
  }

  /**
   * Whatever the interleaving, the service over PostgreSQL is the service over the contract: the run made of
   * its visible steps has the log that the tables stand for, the same facts, and the same operations.
   */
  lemma {:induction false} RunRefines(setup: Setup, actions: seq<Action>)
    requires setup.maxEvents <= MAX_SAFE
    ensures Inv(setup, Run(setup, actions))
    ensures Abstract(Run(setup, actions)) == S.Run(setup.cfg, VisibleRun(setup, actions))
  {
    if actions == [] {
      assert Abstract(INITIAL) == S.INITIAL;
      assert forall id :: P.GoodRows(id, 0, map[]);
    } else {
      var init, a := actions[..|actions| - 1], actions[|actions| - 1];
      RunRefines(setup, init);
      ApplyKeepsInv(setup, Run(setup, init), a);
      Runs.RunGoesOn(setup.cfg, VisibleRun(setup, init), Visible(setup, Run(setup, init), a));
    }
  }
}
