/**
 * The PostgreSQL store under concurrency. Each append is a transaction whose statements are separate
 * steps at READ COMMITTED: a statement sees what is committed when it starts plus its own writes, row
 * locks are held until commit or rollback, a blocked update re-reads the row it waited for, and any
 * statement may fail, COMMIT with an unknown outcome included.
 */
module PostgresAppend {
  import opened Domain
  import opened EventLog
  import opened PostgresCheck

  type TxId = nat

  /** The committed tables: one head row per stream, one event row per stream and version. */
  datatype Tables = Tables(heads: map<Id, int>, rows: map<Id, map<int, Event>>)

  datatype Reply = Appended | Conflict(actual: int) | Failed(error: Error)

  /**
   * Where an append waits; every counter but the last three is one statement about to be sent. In doubt, the
   * connection is gone and the caller may have been told of a failure, while the server has yet to decide.
   */
  datatype Pc =
    | CompareOnly
    | BeginTx
    | InsertHead
    | Fence
    | FenceWait
    | ReadActual(seen: int)
    | InsertRows
    | Commit
    | InDoubt
    | Rollback(reply: Reply)
    | Finished(reply: Reply)

  /**
   * One append call. `floor` is the committed version when the call arrived, `ownHead` the uncommitted
   * head row this transaction wrote, and `applied` whether its COMMIT took effect.
   */
  datatype Tx = Tx(id: Id, expected: int, batch: seq<Event>, floor: int, ownHead: Option<int>, applied: bool, pc: Pc)

  /** `locks` says which transaction holds a stream's head row, whether committed or just inserted. */
  datatype State = State(tables: Tables, locks: map<Id, TxId>, txs: map<TxId, Tx>)

  datatype Action =
    | Call(t: TxId, id: Id, expected: int, batch: seq<Event>)
    | Advance(t: TxId)
    | Fail(t: TxId)
    | Disconnect(t: TxId)
    | LoseCommitAnswer(t: TxId, committed: bool)

  function HeadOf(tables: Tables, id: Id): int {
    if id in tables.heads then tables.heads[id] else 0
  }

  function RowsOf(tables: Tables, id: Id): map<int, Event> {
    if id in tables.rows then tables.rows[id] else map[]
  }

  // ---------------------------------------------------------------- before any statement

  predicate IsSafe(n: int) { -MAX_SAFE <= n <= MAX_SAFE }

  /** What append checks before it takes a connection: the version range, the bound, then the batch. */
  function Prevalidate(id: Id, expected: int, batch: seq<Event>, maxEvents: int): Option<Error> {
    if !IsSafe(expected) || expected < 0 || !IsSafe(expected + |batch|) then Some(BadVersion)
    else if expected + |batch| > maxEvents then Some(StreamTooLarge)
    else BatchError(id, expected, batch)
  }

  /** Exactly when each of the first checks refuses an append; what passes them continues a stream within the bound. */
  lemma FirstChecksRefuseExactly(id: Id, expected: int, batch: seq<Event>, maxEvents: int)
    ensures var refusal := Prevalidate(id, expected, batch, maxEvents);
      var last := expected + |batch|;
      (refusal == Some(BadVersion) <==> expected < 0 || last > 9_007_199_254_740_991) &&
      (refusal == Some(StreamTooLarge) <==> expected >= 0 && maxEvents < last <= 9_007_199_254_740_991) &&
      (refusal.None? <==>
        expected >= 0 && last <= 9_007_199_254_740_991 && last <= maxEvents && ContinuesStream(id, expected, batch)) &&
      (refusal.Some? && refusal != Some(BadVersion) && refusal != Some(StreamTooLarge) ==>
        exists k :: BreaksAt(id, expected, batch, k, refusal.value))
  {
    BatchPassesExactly(id, expected, batch);
    if BatchError(id, expected, batch).Some? {
      BatchErrorIsTheFirst(id, expected, batch);
      var k :| BreaksAt(id, expected, batch, k, BatchError(id, expected, batch).value);
      assert IsBatchComplaint(id, expected + k + 1, batch[k], BatchError(id, expected, batch).value);
    }
  }

  /** What an append comes to when nothing interferes: validated first, then compared and appended. */
  function ValidatedAppend(log: Log, id: Id, expected: int, batch: seq<Event>, maxEvents: int): EventLog.Appended {
    match Prevalidate(id, expected, batch, maxEvents)
    case Some(e) => Refused(e)
    case None => CompareAndAppend(log, id, expected, batch)
  }

  function NewTx(s: State, id: Id, expected: int, batch: seq<Event>, maxEvents: int): Tx {
    var pc :=
      match Prevalidate(id, expected, batch, maxEvents)
      case Some(e) => Finished(Failed(e))
      case None => if batch == [] then CompareOnly else BeginTx;
    Tx(id, expected, batch, HeadOf(s.tables, id), None, false, pc)
  }

  // ---------------------------------------------------------------- one statement

  predicate Blocked(s: State, t: TxId, id: Id) { id in s.locks && s.locks[id] != t }

  function Put(s: State, t: TxId, tx: Tx): State { s.(txs := s.txs[t := tx]) }

  function Lock(s: State, id: Id, t: TxId): State { s.(locks := s.locks[id := t]) }

  function Unlock(s: State, id: Id, t: TxId): State {
    if id in s.locks && s.locks[id] == t then s.(locks := s.locks - {id}) else s
  }

  /** The rows an INSERT of the batch adds: consecutive versions after the expected one. */
  function NewRows(expected: int, batch: seq<Event>): (r: map<int, Event>)
    ensures forall v :: v in r <==> expected < v <= expected + |batch|
    ensures forall v | v in r :: r[v] == batch[v - expected - 1]
  {
    if batch == [] then map[]
    else NewRows(expected, batch[..|batch| - 1])[expected + |batch| := batch[|batch| - 1]]
  }

  function CommitTables(tables: Tables, tx: Tx): Tables {
    Tables(tables.heads[tx.id := tx.expected + |tx.batch|],
           tables.rows[tx.id := RowsOf(tables, tx.id) + NewRows(tx.expected, tx.batch)])
  }

  /** The state after a COMMIT that took effect, and was answered like this. */
  function AfterCommit(s: State, t: TxId, reply: Reply): State
    requires t in s.txs
  {
    var tx := s.txs[t];
    Put(Unlock(s.(tables := CommitTables(s.tables, tx)), tx.id, t), t,
        tx.(applied := true, ownHead := None, pc := Finished(reply)))
  }

  /** The state after the transaction has been given up. */
  function AfterRollback(s: State, t: TxId, reply: Reply): State
    requires t in s.txs
  {
    Put(Unlock(s, s.txs[t].id, t), t, s.txs[t].(ownHead := None, pc := Finished(reply)))
  }

  /**
   * Run the next statement of transaction `t`; a blocked statement leaves the state as it is, and a
   * transaction in doubt is given up by the server.
   */
  function Statement(s: State, t: TxId): State
    requires t in s.txs
  {
    var tx := s.txs[t];
    var id := tx.id;
    match tx.pc
    case CompareOnly =>
      var actual := HeadOf(s.tables, id);
      Put(s, t, tx.(pc := Finished(if actual == tx.expected then Appended else Conflict(actual))))
    case BeginTx => Put(s, t, tx.(pc := if tx.expected == 0 then InsertHead else Fence))
    case InsertHead =>
      if id in s.tables.heads then Put(s, t, tx.(pc := Fence))
      else if Blocked(s, t, id) then s
      else Put(Lock(s, id, t), t, tx.(ownHead := Some(0), pc := Fence))
    case Fence =>
      if tx.ownHead.Some? then
        if tx.ownHead.value == tx.expected then
          Put(s, t, tx.(ownHead := Some(tx.expected + |tx.batch|), pc := InsertRows))
        else Put(s, t, tx.(pc := ReadActual(tx.ownHead.value)))
      else if id in s.tables.heads && s.tables.heads[id] == tx.expected then Put(s, t, tx.(pc := FenceWait))
      else Put(s, t, tx.(pc := ReadActual(HeadOf(s.tables, id))))
    case FenceWait =>
      if Blocked(s, t, id) then s
      else if id in s.tables.heads && s.tables.heads[id] == tx.expected then
        Put(Lock(s, id, t), t, tx.(ownHead := Some(tx.expected + |tx.batch|), pc := InsertRows))
      else Put(s, t, tx.(pc := ReadActual(HeadOf(s.tables, id))))
    case ReadActual(_) =>
      Put(s, t, tx.(pc := Rollback(Conflict(if tx.ownHead.Some? then tx.ownHead.value else HeadOf(s.tables, id)))))
    case InsertRows =>
      if !AllPass(tx.batch) ||
         exists v: int | tx.expected < v <= tx.expected + |tx.batch| :: v in RowsOf(s.tables, id)
      then Put(s, t, tx.(pc := Rollback(Failed(StoreFailed))))
      else Put(s, t, tx.(pc := Commit))
    case Commit => AfterCommit(s, t, Appended)
    case InDoubt => AfterRollback(s, t, Failed(StoreFailed))
    case Rollback(reply) => AfterRollback(s, t, reply)
    case Finished(_) => s
  }

  /** Everything is written, and COMMIT is about to be sent, or on its way. */
  predicate MayCommit(pc: Pc) { pc.Commit? || pc.InDoubt? }

  function Apply(maxEvents: int, s: State, a: Action): State {
    match a
    case Call(t, id, expected, batch) =>
      if t in s.txs then s else Put(s, t, NewTx(s, id, expected, batch, maxEvents))
    case Advance(t) => if t in s.txs then Statement(s, t) else s
    case Fail(t) =>
      if t !in s.txs || s.txs[t].pc.Finished? || s.txs[t].pc.Rollback? || MayCommit(s.txs[t].pc) then s
      else if s.txs[t].pc.CompareOnly? then Put(s, t, s.txs[t].(pc := Finished(Failed(StoreFailed))))
      else Put(s, t, s.txs[t].(pc := Rollback(Failed(StoreFailed))))
    case Disconnect(t) =>
      if t !in s.txs || !s.txs[t].pc.Commit? then s else Put(s, t, s.txs[t].(pc := InDoubt))
    case LoseCommitAnswer(t, committed) =>
      if t !in s.txs || !MayCommit(s.txs[t].pc) then s
      else if committed then AfterCommit(s, t, Failed(StoreFailed))
      else Put(s, t, s.txs[t].(pc := Rollback(Failed(StoreFailed))))
  }

  const EMPTY := State(Tables(map[], map[]), map[], map[])

  function Run(maxEvents: int, actions: seq<Action>): State {
    if actions == [] then EMPTY
    else Apply(maxEvents, Run(maxEvents, actions[..|actions| - 1]), actions[|actions| - 1])
  }

  // ---------------------------------------------------------------- what the tables stand for

  /** The rows of one stream are numbered 1 to its head, and each carries its stream's id and its number. */
  ghost predicate GoodRows(id: Id, head: int, rows: map<int, Event>) {
    head >= 0 && (forall v :: v in rows <==> 1 <= v <= head) &&
    forall v | v in rows :: rows[v].continuationId == id && rows[v].version == v && Storable(rows[v])
  }

  /** Every committed head is at least one, and its stream has exactly the rows 1 to that head. */
  ghost predicate GoodTables(tables: Tables) {
    (forall id | id in tables.heads :: tables.heads[id] >= 1) &&
    forall id :: GoodRows(id, HeadOf(tables, id), RowsOf(tables, id))
  }

  ghost function StreamOf(tables: Tables, id: Id): (s: seq<Event>)
    requires GoodTables(tables)
    ensures |s| == HeadOf(tables, id) && ContinuesStream(id, 0, s)
    ensures forall k | 0 <= k < |s| :: s[k] == RowsOf(tables, id)[k + 1]
  {
    assert GoodRows(id, HeadOf(tables, id), RowsOf(tables, id));
    seq(HeadOf(tables, id), k requires 0 <= k < HeadOf(tables, id) => RowsOf(tables, id)[k + 1])
  }

  /** The abstract log: the streams of the committed tables. */
  ghost function LogOf(tables: Tables): (log: Log)
    requires GoodTables(tables)
    ensures log.Keys == tables.heads.Keys
    ensures forall id :: Stream(log, id) == StreamOf(tables, id)
    ensures WellNumbered(log)
  {
    map id | id in tables.heads :: StreamOf(tables, id)
  }

  // ---------------------------------------------------------------- what every step keeps

  ghost predicate Holds(s: State, t: TxId, id: Id) { id in s.locks && s.locks[id] == t }

  ghost predicate TxFits(maxEvents: int, s: State, t: TxId, tx: Tx) {
    var head := HeadOf(s.tables, tx.id);
    var next := tx.expected + |tx.batch|;
    tx.floor <= head &&
    (tx.ownHead.Some? ==> Holds(s, t, tx.id) && head == tx.expected) &&
    (tx.applied ==> tx.pc.Finished? && tx.batch != []) &&
    (!(tx.pc.Finished? && tx.pc.reply.Failed?) ==> Prevalidate(tx.id, tx.expected, tx.batch, maxEvents).None?) &&
    (!tx.pc.Finished? && !tx.pc.CompareOnly? ==> tx.batch != []) &&
    match tx.pc
    case CompareOnly => tx.ownHead.None? && tx.batch == []
    case BeginTx => tx.ownHead.None?
    case InsertHead => tx.ownHead.None? && tx.expected == 0
    case Fence =>
      (tx.ownHead.Some? ==> tx.ownHead == Some(0) && tx.expected == 0) &&
      (tx.ownHead.None? && tx.expected == 0 ==> head > 0)
    case FenceWait => tx.ownHead.None? && tx.expected <= head && head > 0
    case ReadActual(seen) => tx.ownHead.None? && seen != tx.expected && tx.floor <= seen <= head
    case InsertRows => tx.ownHead == Some(next)
    case Commit => tx.ownHead == Some(next) && AllPass(tx.batch)
    case InDoubt => tx.ownHead == Some(next) && AllPass(tx.batch)
    case Rollback(reply) => ReplyFits(tx, head, reply)
    case Finished(reply) =>
      tx.ownHead.None? && ReplyFits(tx, head, reply) &&
      (reply.Appended? ==> tx.applied || tx.batch == [])
  }

  ghost predicate ReplyFits(tx: Tx, head: int, reply: Reply) {
    match reply
    case Appended => tx.pc.Finished?
    case Conflict(actual) =>
      !tx.applied && tx.floor <= actual <= head && (tx.floor >= tx.expected ==> actual > tx.expected) &&
      (tx.batch == [] ==> actual != tx.expected)
    case Failed(_) => true
  }

  /** The batch of a transaction whose commit took effect is in its stream, where it aimed. */
  ghost predicate AppliedFits(tables: Tables, tx: Tx) {
    tx.applied ==>
      0 <= tx.expected && tx.expected + |tx.batch| <= HeadOf(tables, tx.id) &&
      Includes(RowsOf(tables, tx.id), NewRows(tx.expected, tx.batch))
  }

  ghost predicate Includes(rows: map<int, Event>, part: map<int, Event>) {
    forall v | v in part :: v in rows && rows[v] == part[v]
  }

  ghost predicate LocksFit(s: State) {
    forall id | id in s.locks ::
      s.locks[id] in s.txs && s.txs[s.locks[id]].id == id && s.txs[s.locks[id]].ownHead.Some?
  }

  ghost predicate Inv(maxEvents: int, s: State) {
    GoodTables(s.tables) && LocksFit(s) &&
    forall t | t in s.txs :: TxFits(maxEvents, s, t, s.txs[t]) && AppliedFits(s.tables, s.txs[t])
  }
}
