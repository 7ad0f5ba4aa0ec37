/**
 * The service over PostgreSQL, statement by statement. Every append of an operation is a transaction whose
 * statements interleave with everything else, every load is the rows its SELECT returned, a process may die
 * while its transaction goes on, and what an operation knows of an append is the answer that reaches it.
 */
module PostgresService {
  import opened Domain
  import opened EventLog
  import P = PostgresAppend
  import L = PostgresLoad
  import S = Service

  /**
   * `calls` names the transaction whose answer an operation awaits, `owners` the operation that sent each
   * transaction, `dead` the operations whose process is gone, and `told` those that lost their connection
   * during COMMIT and have reported the failure to their caller while the server had not decided.
   */
  datatype State = State(
    pg: P.State, ops: map<nat, S.Op>, facts: seq<S.Fact>, calls: map<nat, P.TxId>, owners: map<P.TxId, nat>,
    dead: set<nat>, told: set<nat>)

  /** How the service and its store are configured. */
  datatype Setup = Setup(cfg: S.Config, maxEvents: nat)

  datatype Action =
    | Begin(o: nat, request: S.Request)
    | Die(o: nat)
    | Move(o: nat, env: S.Env, rows: seq<L.Row>)
    | Send(o: nat, t: P.TxId)
    | Database(a: P.Action)
    | Receive(o: nat)
    | Report(o: nat)

  const INITIAL := State(P.EMPTY, map[], [], map[], map[], {}, {})

  // ---------------------------------------------------------------- loads

  predicate Loads(op: S.Op) { !op.request.Create? && (op.pc.Start? || op.pc.Reload? || op.pc.ReloadExpired?) }

  function LogWith(id: Id, events: seq<Event>): Log {
    if events == [] then map[] else map[id := events]
  }

  /** A step that is not an append: a load that succeeds goes on with what its rows decode to. */
  function StepOn(setup: Setup, o: nat, op: S.Op, env: S.Env, rows: seq<L.Row>): S.Effect {
    if !Loads(op) || S.Fails(env.fault) then S.Step(setup.cfg, map[], o, op, env)
    else
      var id := op.request.continuationId;
      match L.DecodeStream(id, setup.maxEvents, rows)
      case Failure(e) => S.Finish(op, Failure(e))
      case Success(events) => S.Step(setup.cfg, LogWith(id, events), o, op, env)
  }

  /** The rows are what the statement may return in this state, whenever the step is a load that succeeds. */
  ghost predicate RowsFit(setup: Setup, s: State, op: S.Op, env: S.Env, rows: seq<L.Row>) {
    Loads(op) && !S.Fails(env.fault) ==>
      L.Selects(L.RawOf(s.pg.tables), op.request.continuationId, setup.maxEvents + 1, rows)
  }

  // ---------------------------------------------------------------- appends

  /** Committed or given up: no later statement of the transaction changes its answer. */
  predicate Decided(tx: P.Tx) { tx.pc.Rollback? || tx.pc.Finished? }

  function ReplyOf(tx: P.Tx): P.Reply
    requires Decided(tx)
  {
    tx.pc.reply
  }

  /** An operation with the answer to its append; what a lost acknowledgement committed is committed. */
  function Answered(op: S.Op, tx: P.Tx): S.Op
    requires S.Appends(op.pc) && Decided(tx)
  {
    var known := if tx.applied then op.(committed := Some(op.pc.event)) else op;
    match ReplyOf(tx)
    case Appended => known.(pc := S.OnCommit(op.pc))
    case Conflict(actual) => known.(pc := S.OnConflict(op.pc, actual))
    case Failed(e) => known.(pc := S.Done(Failure(e)))
  }

  // ---------------------------------------------------------------- any action

  /** The log that the committed tables stand for. */
  ghost function LogNow(s: State): Log {
    if P.GoodTables(s.pg.tables) then P.LogOf(s.pg.tables) else map[]
  }

  /** Alive, and waiting for no answer. */
  predicate Free(s: State, o: nat) { o in s.ops && o !in s.calls && o !in s.dead }

  ghost predicate Moves(setup: Setup, s: State, o: nat, env: S.Env, rows: seq<L.Row>) {
    Free(s, o) && !S.Appends(s.ops[o].pc) && RowsFit(setup, s, s.ops[o], env, rows)
  }

  predicate Sends(s: State, o: nat, t: P.TxId) { Free(s, o) && S.Appends(s.ops[o].pc) && t !in s.pg.txs }

  predicate Awaits(s: State, o: nat) {
    o in s.ops && o in s.calls && S.Appends(s.ops[o].pc) && s.calls[o] in s.pg.txs
  }

  ghost function Apply(setup: Setup, s: State, a: Action): State {
    match a
    case Begin(o, request) =>
      if o in s.ops then s
      else
        var seen := if request.Create? then [] else Stream(LogNow(s), request.continuationId);
        s.(ops := s.ops[o := S.Op(request, seen, None, None, None, None, S.Start)])
    case Die(o) => s.(dead := s.dead + {o})
    case Move(o, env, rows) =>
      if !Moves(setup, s, o, env, rows) then s
      else
        var e := StepOn(setup, o, s.ops[o], env, rows);
        s.(ops := s.ops[o := e.op], facts := if e.fact.Some? then s.facts + [e.fact.value] else s.facts)
    case Send(o, t) =>
      if !Sends(s, o, t) then s
      else
        var event := s.ops[o].pc.event;
        var call := P.Call(t, event.continuationId, S.ExpectedVersion(s.ops[o].pc), [event]);
        s.(pg := P.Apply(setup.maxEvents, s.pg, call), calls := s.calls[o := t], owners := s.owners[t := o])
    case Database(a) => if a.Call? then s else s.(pg := P.Apply(setup.maxEvents, s.pg, a))
    case Receive(o) =>
      if !Awaits(s, o) || o in s.dead || o in s.told || !Decided(s.pg.txs[s.calls[o]]) then s
      else s.(ops := s.ops[o := Answered(s.ops[o], s.pg.txs[s.calls[o]])], calls := s.calls - {o})
    case Report(o) =>
      if !Awaits(s, o) || o in s.dead || !s.pg.txs[s.calls[o]].pc.InDoubt? then s else s.(told := s.told + {o})
  }

  /** What the caller of an operation has been told. */
  function HeardBy(s: State, o: nat): Option<Result<Envelope>>
    requires o in s.ops
  {
    if o in s.told then Some(Failure(StoreFailed))
    else if s.ops[o].pc.Done? then Some(s.ops[o].pc.outcome)
    else None
  }

  ghost function Run(setup: Setup, actions: seq<Action>): State {
    if actions == [] then INITIAL
    else Apply(setup, Run(setup, actions[..|actions| - 1]), actions[|actions| - 1])
  }
}
