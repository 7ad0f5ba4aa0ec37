/**
 * Every interleaving of append transactions refines the event-store contract: a commit is one atomic
 * compare-and-append on the abstract log, and nothing else changes it.
 */
module PostgresRuns {
  import opened Domain
  import opened EventLog
  import opened PostgresAppend
  import opened PostgresCheck

  // ---------------------------------------------------------------- the commit

  lemma BatchOfTx(maxEvents: int, tx: Tx)
    requires Prevalidate(tx.id, tx.expected, tx.batch, maxEvents).None?
    ensures ContinuesStream(tx.id, tx.expected, tx.batch) && 0 <= tx.expected <= tx.expected + |tx.batch| <= maxEvents
  {
    BatchPassesExactly(tx.id, tx.expected, tx.batch);
  }

  lemma CommitKeepsRows(id: Id, head: int, rows: map<int, Event>, batch: seq<Event>)
    requires GoodRows(id, head, rows) && ContinuesStream(id, head, batch)
    ensures GoodRows(id, head + |batch|, rows + NewRows(head, batch))
    ensures Includes(rows + NewRows(head, batch), rows)
  {
    var added := NewRows(head, batch);
    forall v | v in added ensures FitsPlace(id, v, added[v]) {
      NewRowFits(id, head, batch, v);
    }
    RowsJoin(id, head, rows, |batch|, added);
  }

  ghost predicate FitsPlace(id: Id, v: int, e: Event) {
    e.continuationId == id && e.version == v && Storable(e)
  }

  lemma NewRowFits(id: Id, head: int, batch: seq<Event>, v: int)
    requires ContinuesStream(id, head, batch) && head < v <= head + |batch|
    ensures FitsPlace(id, v, NewRows(head, batch)[v])
  {
    var e := batch[v - head - 1];
    assert NewRows(head, batch)[v] == e;
  }

  lemma RowsJoin(id: Id, head: int, rows: map<int, Event>, n: nat, added: map<int, Event>)
    requires GoodRows(id, head, rows) && (forall v :: v in added <==> head < v <= head + n)
    requires forall v | v in added :: FitsPlace(id, v, added[v])
    ensures GoodRows(id, head + n, rows + added) && Includes(rows + added, rows)
  {
  }

  lemma CommitKeepsTables(tables: Tables, tx: Tx)
    requires GoodTables(tables) && HeadOf(tables, tx.id) == tx.expected && tx.batch != []
    requires ContinuesStream(tx.id, tx.expected, tx.batch)
    ensures var after := CommitTables(tables, tx);
      GoodTables(after) && AppliedFits(after, tx) && HeadOf(after, tx.id) == tx.expected + |tx.batch| &&
      Includes(RowsOf(after, tx.id), RowsOf(tables, tx.id)) &&
      forall id | id != tx.id :: HeadOf(after, id) == HeadOf(tables, id) && RowsOf(after, id) == RowsOf(tables, id)
  {
    var after := CommitTables(tables, tx);
    assert GoodRows(tx.id, HeadOf(tables, tx.id), RowsOf(tables, tx.id));
    CommitKeepsRows(tx.id, tx.expected, RowsOf(tables, tx.id), tx.batch);
    forall id ensures GoodRows(id, HeadOf(after, id), RowsOf(after, id)) {
      if id != tx.id { assert GoodRows(id, HeadOf(tables, id), RowsOf(tables, id)); }
    }
  }

  function RowAt(rows: map<int, Event>, v: int): Option<Event> {
    if v in rows then Some(rows[v]) else None
  }

  /** The events at the rows 1 to its length. */
  ghost predicate Lists(rows: map<int, Event>, s: seq<Event>) {
    forall k | 0 <= k < |s| :: RowAt(rows, k + 1) == Some(s[k])
  }

  lemma ListsAfterCommit(rows: map<int, Event>, s: seq<Event>, batch: seq<Event>, t: seq<Event>)
    requires Lists(rows, s) && Lists(rows + NewRows(|s|, batch), t) && |t| == |s| + |batch|
    ensures t == s + batch
  {
    var after := rows + NewRows(|s|, batch);
    forall k | 0 <= k < |t| ensures t[k] == (s + batch)[k] {
      assert RowAt(after, k + 1) == Some(t[k]);
      if k < |s| {
        assert RowAt(after, k + 1) == RowAt(rows, k + 1) == Some(s[k]);
      } else {
        assert k + 1 in NewRows(|s|, batch);
      }
    }
  }

  lemma RowsOfCommit(tables: Tables, tx: Tx)
    ensures RowsOf(CommitTables(tables, tx), tx.id) == RowsOf(tables, tx.id) + NewRows(tx.expected, tx.batch)
    ensures HeadOf(CommitTables(tables, tx), tx.id) == tx.expected + |tx.batch|
  {
  }

  lemma StreamIsListed(tables: Tables, id: Id)
    requires GoodTables(tables)
    ensures Lists(RowsOf(tables, id), StreamOf(tables, id)) && |StreamOf(tables, id)| == HeadOf(tables, id)
  {
    assert GoodRows(id, HeadOf(tables, id), RowsOf(tables, id));
  }

  lemma CommittedStream(tables: Tables, tx: Tx)
    requires GoodTables(tables) && HeadOf(tables, tx.id) == tx.expected && GoodTables(CommitTables(tables, tx))
    ensures StreamOf(CommitTables(tables, tx), tx.id) == StreamOf(tables, tx.id) + tx.batch
  {
    RowsOfCommit(tables, tx);
    StreamIsListed(tables, tx.id);
    StreamIsListed(CommitTables(tables, tx), tx.id);
    ListsAfterCommit(RowsOf(tables, tx.id), StreamOf(tables, tx.id), tx.batch,
                     StreamOf(CommitTables(tables, tx), tx.id));
  }

  lemma OtherStreamsStay(tables: Tables, tx: Tx, id: Id)
    requires GoodTables(tables) && GoodTables(CommitTables(tables, tx)) && id != tx.id
    ensures StreamOf(CommitTables(tables, tx), id) == StreamOf(tables, id)
  {
  }

  lemma ExtendedLog(before: Log, after: Log, id: Id, batch: seq<Event>)
    requires batch != [] && after.Keys == before.Keys + {id} && Stream(after, id) == Stream(before, id) + batch
    requires forall other | other != id :: Stream(after, other) == Stream(before, other)
    ensures after == Extend(before, id, batch)
  {
    forall other | other in after ensures after[other] == Extend(before, id, batch)[other] {
      if other != id { assert Stream(after, other) == Stream(before, other); }
    }
  }

  lemma CommittedLog(tables: Tables, tx: Tx)
    requires GoodTables(tables) && HeadOf(tables, tx.id) == tx.expected && tx.batch != []
    requires ContinuesStream(tx.id, tx.expected, tx.batch) && GoodTables(CommitTables(tables, tx))
    ensures LogOf(CommitTables(tables, tx)) == Extend(LogOf(tables), tx.id, tx.batch)
  {
    CommittedStream(tables, tx);
    var before, after := LogOf(tables), LogOf(CommitTables(tables, tx));
    forall other | other != tx.id ensures Stream(after, other) == Stream(before, other) {
      OtherStreamsStay(tables, tx, other);
    }
    ExtendedLog(before, after, tx.id, tx.batch);
  }

  /** A commit is exactly one compare-and-append on the log the tables stand for. */
  lemma CommitIsOneAppend(tables: Tables, tx: Tx)
    requires GoodTables(tables) && HeadOf(tables, tx.id) == tx.expected && tx.batch != []
    requires ContinuesStream(tx.id, tx.expected, tx.batch)
    ensures GoodTables(CommitTables(tables, tx))
    ensures CompareAndAppend(LogOf(tables), tx.id, tx.expected, tx.batch) == Stored(LogOf(CommitTables(tables, tx)))
  {
    CommitKeepsTables(tables, tx);
    CommittedLog(tables, tx);
    BatchPassesExactly(tx.id, tx.expected, tx.batch);
  }

  // ---------------------------------------------------------------- one action

  /** What an action by one transaction may do to the rest: grow heads, and move only its own lock. */
  ghost predicate LeavesOthersAlone(s: State, s': State, t: TxId) {
    GoodTables(s.tables) && GoodTables(s'.tables) &&
    (forall id :: HeadOf(s.tables, id) <= HeadOf(s'.tables, id)) &&
    (forall id :: Includes(RowsOf(s'.tables, id), RowsOf(s.tables, id))) &&
    (forall id, u | u != t && Holds(s, u, id) :: Holds(s', u, id) && HeadOf(s'.tables, id) == HeadOf(s.tables, id)) &&
    (forall id | id in s'.locks && s'.locks[id] != t :: id in s.locks && s.locks[id] == s'.locks[id])
  }

  lemma OtherTxFits(maxEvents: int, s: State, s': State, t: TxId, u: TxId, tx: Tx)
    requires u != t && TxFits(maxEvents, s, u, tx) && AppliedFits(s.tables, tx) && LeavesOthersAlone(s, s', t)
    ensures TxFits(maxEvents, s', u, tx) && AppliedFits(s'.tables, tx)
  {
    assert Includes(RowsOf(s'.tables, tx.id), RowsOf(s.tables, tx.id));
  }

  lemma OwnTxSuffices(maxEvents: int, s: State, s': State, t: TxId, tx: Tx)
    requires Inv(maxEvents, s) && LeavesOthersAlone(s, s', t) && s'.txs == s.txs[t := tx]
    requires TxFits(maxEvents, s', t, tx) && AppliedFits(s'.tables, tx)
    requires forall id | Holds(s', t, id) :: tx.id == id && tx.ownHead.Some?
    ensures Inv(maxEvents, s')
  {
    forall id | id in s'.locks
      ensures s'.locks[id] in s'.txs && s'.txs[s'.locks[id]].id == id && s'.txs[s'.locks[id]].ownHead.Some?
    {
      if s'.locks[id] == t { assert Holds(s', t, id); }
    }
    forall u | u in s'.txs ensures TxFits(maxEvents, s', u, s'.txs[u]) && AppliedFits(s'.tables, s'.txs[u]) {
      if u != t { OtherTxFits(maxEvents, s, s', t, u, s.txs[u]); }
    }
  }

  lemma CallFits(maxEvents: int, s: State, t: TxId, id: Id, expected: int, batch: seq<Event>)
    requires Inv(maxEvents, s) && t !in s.txs
    ensures Inv(maxEvents, Put(s, t, NewTx(s, id, expected, batch, maxEvents)))
  {
    OwnTxSuffices(maxEvents, s, Put(s, t, NewTx(s, id, expected, batch, maxEvents)), t,
                  NewTx(s, id, expected, batch, maxEvents));
  }

  lemma MovedTxFits(maxEvents: int, s: State, t: TxId, tx: Tx)
    requires Inv(maxEvents, s) && t in s.txs && tx.id == s.txs[t].id
    requires (Holds(s, t, tx.id) ==> tx.ownHead.Some?) && TxFits(maxEvents, s, t, tx) && AppliedFits(s.tables, tx)
    ensures Inv(maxEvents, Put(s, t, tx))
  {
    OwnTxSuffices(maxEvents, s, Put(s, t, tx), t, tx);
  }

  lemma LockedTxFits(maxEvents: int, s: State, t: TxId, tx: Tx)
    requires Inv(maxEvents, s) && t in s.txs && tx.id == s.txs[t].id && !Blocked(s, t, tx.id)
    requires tx.ownHead.Some? && TxFits(maxEvents, Lock(s, tx.id, t), t, tx) && AppliedFits(s.tables, tx)
    ensures Inv(maxEvents, Put(Lock(s, tx.id, t), t, tx))
  {
    OwnTxSuffices(maxEvents, s, Put(Lock(s, tx.id, t), t, tx), t, tx);
  }

  lemma RollbackFits(maxEvents: int, s: State, t: TxId, reply: Reply)
    requires Inv(maxEvents, s) && t in s.txs && (s.txs[t].pc.InDoubt? || s.txs[t].pc == Rollback(reply))
    requires s.txs[t].pc.InDoubt? ==> reply == Failed(StoreFailed)
    ensures Inv(maxEvents, AfterRollback(s, t, reply))
  {
    var tx, s' := s.txs[t].(ownHead := None, pc := Finished(reply)), AfterRollback(s, t, reply);
    UnlockLeavesOthersAlone(s, s', t, tx.id);
    assert TxFits(maxEvents, s, t, s.txs[t]) && AppliedFits(s.tables, s.txs[t]);
    ReleasedRow(s, t);
    OwnTxSuffices(maxEvents, s, s', t, tx);
  }

  lemma UnlockLeavesOthersAlone(s: State, s': State, t: TxId, id: Id)
    requires GoodTables(s.tables) && s'.tables == s.tables && s'.locks == Unlock(s, id, t).locks
    ensures LeavesOthersAlone(s, s', t)
  {
  }

  lemma ReleasedRow(s: State, t: TxId)
    requires LocksFit(s) && t in s.txs
    ensures forall id :: !Holds(Unlock(s, s.txs[t].id, t), t, id)
  {
  }

  lemma CommitLeavesOthersAlone(s: State, s': State, t: TxId, tx: Tx)
    requires GoodTables(s.tables) && HeadOf(s.tables, tx.id) == tx.expected && tx.batch != []
    requires ContinuesStream(tx.id, tx.expected, tx.batch) && Holds(s, t, tx.id)
    requires s'.tables == CommitTables(s.tables, tx) && s'.locks == s.locks - {tx.id}
    ensures LeavesOthersAlone(s, s', t)
  {
    CommitKeepsTables(s.tables, tx);
    forall id ensures Includes(RowsOf(s'.tables, id), RowsOf(s.tables, id)) {
    }
  }

  lemma CommitFits(maxEvents: int, s: State, t: TxId, reply: Reply)
    requires Inv(maxEvents, s) && t in s.txs && MayCommit(s.txs[t].pc)
    requires reply == Appended || reply == Failed(StoreFailed)
    ensures Inv(maxEvents, AfterCommit(s, t, reply))
  {
    var tx, done := s.txs[t], AfterCommit(s, t, reply);
    assert TxFits(maxEvents, s, t, tx);
    BatchOfTx(maxEvents, tx);
    CommitKeepsTables(s.tables, tx);
    CommitLeavesOthersAlone(s, done, t, tx);
    ReleasedRow(s, t);
    CommittedTxFits(maxEvents, s, done, t, done.txs[t]);
    OwnTxSuffices(maxEvents, s, done, t, done.txs[t]);
  }

  lemma CommittedTxFits(maxEvents: int, s: State, done: State, t: TxId, tx: Tx)
    requires GoodTables(done.tables) && tx.floor <= HeadOf(done.tables, tx.id) && tx.applied && tx.batch != []
    requires tx.ownHead.None? && (tx.pc == Finished(Appended) || tx.pc == Finished(Failed(StoreFailed)))
    requires Prevalidate(tx.id, tx.expected, tx.batch, maxEvents).None?
    ensures TxFits(maxEvents, done, t, tx)
  {
  }

  lemma LockingStatementFits(maxEvents: int, s: State, t: TxId)
    requires Inv(maxEvents, s) && t in s.txs && (s.txs[t].pc.InsertHead? || s.txs[t].pc.FenceWait?)
    ensures Inv(maxEvents, Statement(s, t))
  {
    var tx, s' := s.txs[t], Statement(s, t);
    if s'.locks != s.locks {
      assert s'.locks == Lock(s, tx.id, t).locks;
    }
    if s' != s && s'.txs[t].ownHead.Some? {
      LockedTxFits(maxEvents, s, t, s'.txs[t]);
    } else if s' != s {
      MovedTxFits(maxEvents, s, t, s'.txs[t]);
    }
  }

  lemma PlainStatementFits(maxEvents: int, s: State, t: TxId)
    requires Inv(maxEvents, s) && t in s.txs
    requires var pc := s.txs[t].pc;
      pc.CompareOnly? || pc.BeginTx? || pc.Fence? || pc.ReadActual? || pc.InsertRows?
    ensures Inv(maxEvents, Statement(s, t))
  {
    assert TxFits(maxEvents, s, t, s.txs[t]) && AppliedFits(s.tables, s.txs[t]);
    PlainStatementMoves(maxEvents, s, t);
    MovedTxFits(maxEvents, s, t, Statement(s, t).txs[t]);
  }

  lemma PlainStatementMoves(maxEvents: int, s: State, t: TxId)
    requires GoodTables(s.tables) && LocksFit(s) && t in s.txs && TxFits(maxEvents, s, t, s.txs[t])
    requires AppliedFits(s.tables, s.txs[t])
    requires var pc := s.txs[t].pc;
      pc.CompareOnly? || pc.BeginTx? || pc.Fence? || pc.ReadActual? || pc.InsertRows?
    ensures t in Statement(s, t).txs
    ensures var tx := Statement(s, t).txs[t];
      Statement(s, t) == Put(s, t, tx) && tx.id == s.txs[t].id && TxFits(maxEvents, s, t, tx) &&
      (Holds(s, t, tx.id) ==> tx.ownHead.Some?) && AppliedFits(s.tables, tx)
  {
    assert GoodRows(s.txs[t].id, HeadOf(s.tables, s.txs[t].id), RowsOf(s.tables, s.txs[t].id));
  }

  lemma StatementFits(maxEvents: int, s: State, t: TxId)
    requires Inv(maxEvents, s) && t in s.txs
    ensures Inv(maxEvents, Statement(s, t))
  {
    match s.txs[t].pc
    case Commit => CommitFits(maxEvents, s, t, Appended);
    case InDoubt => RollbackFits(maxEvents, s, t, Failed(StoreFailed));
    case Rollback(reply) => RollbackFits(maxEvents, s, t, reply);
    case InsertHead => LockingStatementFits(maxEvents, s, t);
    case FenceWait => LockingStatementFits(maxEvents, s, t);
    case Finished(_) =>
    case _ => PlainStatementFits(maxEvents, s, t);
  }

  lemma ApplyKeepsInv(maxEvents: int, s: State, a: Action)
    requires Inv(maxEvents, s)
    ensures Inv(maxEvents, Apply(maxEvents, s, a))
  {
    match a
    case Call(t, id, expected, batch) =>
      if t !in s.txs { CallFits(maxEvents, s, t, id, expected, batch); }
    case Advance(t) =>
      if t in s.txs { StatementFits(maxEvents, s, t); }
    case Fail(_) => FailureFits(maxEvents, s, a);
    case Disconnect(_) => FailureFits(maxEvents, s, a);
    case LoseCommitAnswer(t, committed) =>
      if t in s.txs && MayCommit(s.txs[t].pc) {
        if committed {
          CommitFits(maxEvents, s, t, Failed(StoreFailed));
        } else {
          FailureFits(maxEvents, s, a);
        }
      }
  }

  /** A failure that commits nothing moves its own transaction, and nothing else. */
  lemma FailureFits(maxEvents: int, s: State, a: Action)
    requires Inv(maxEvents, s) && (a.Fail? || a.Disconnect? || (a.LoseCommitAnswer? && !a.committed))
    ensures Inv(maxEvents, Apply(maxEvents, s, a))
  {
    var s' := Apply(maxEvents, s, a);
    if s' != s {
      var tx := s'.txs[a.t];
      assert s' == Put(s, a.t, tx) && TxFits(maxEvents, s, a.t, s.txs[a.t]) && AppliedFits(s.tables, s.txs[a.t]);
      FailedTxFits(maxEvents, s, a.t, s.txs[a.t], tx);
      MovedTxFits(maxEvents, s, a.t, tx);
    }
  }

  lemma FailedTxFits(maxEvents: int, s: State, t: TxId, tx: Tx, next: Tx)
    requires TxFits(maxEvents, s, t, tx) && AppliedFits(s.tables, tx) && !tx.pc.Finished?
    requires next == tx.(pc := next.pc)
    requires (next.pc == Rollback(Failed(StoreFailed)) && !tx.pc.CompareOnly?) ||
      (next.pc.InDoubt? && tx.pc.Commit?) || (next.pc == Finished(Failed(StoreFailed)) && tx.pc.CompareOnly?)
    ensures TxFits(maxEvents, s, t, next) && AppliedFits(s.tables, next)
  {
  }

  lemma {:induction false} RunKeepsInv(maxEvents: int, actions: seq<Action>)
    ensures Inv(maxEvents, Run(maxEvents, actions))
  {
    if actions != [] {
      RunKeepsInv(maxEvents, actions[..|actions| - 1]);
      ApplyKeepsInv(maxEvents, Run(maxEvents, actions[..|actions| - 1]), actions[|actions| - 1]);
    }
  }

  // ---------------------------------------------------------------- the guarantees

  /**
   * Every action either leaves the abstract log alone, or is the one commit of one transaction, and then
   * it is exactly that transaction's compare-and-append.
   */
  lemma ActionsRefineTheContract(maxEvents: int, actions: seq<Action>, a: Action)
    ensures Inv(maxEvents, Run(maxEvents, actions)) && Inv(maxEvents, Run(maxEvents, actions + [a]))
    ensures var s, s' := Run(maxEvents, actions), Run(maxEvents, actions + [a]);
      LogOf(s'.tables) == LogOf(s.tables) ||
      exists t | t in s.txs && t in s'.txs :: !s.txs[t].applied && s'.txs[t].applied &&
        CompareAndAppend(LogOf(s.tables), s.txs[t].id, s.txs[t].expected, s.txs[t].batch) == Stored(LogOf(s'.tables))
  {
    RunKeepsInv(maxEvents, actions);
    RunKeepsInv(maxEvents, actions + [a]);
    assert (actions + [a])[..|actions|] == actions;
    var s := Run(maxEvents, actions);
    OnlyCommitsTouchTables(maxEvents, s, a);
    if Apply(maxEvents, s, a).tables != s.tables {
      CommittingTx(maxEvents, s, a.t);
      CommitIsOneAppend(s.tables, s.txs[a.t]);
    }
  }

  lemma CommittingTx(maxEvents: int, s: State, t: TxId)
    requires Inv(maxEvents, s) && t in s.txs && MayCommit(s.txs[t].pc)
    ensures var tx := s.txs[t];
      !tx.applied && AllPass(tx.batch) && HeadOf(s.tables, tx.id) == tx.expected && tx.batch != [] &&
      ContinuesStream(tx.id, tx.expected, tx.batch) && tx.expected + |tx.batch| <= maxEvents
  {
    assert TxFits(maxEvents, s, t, s.txs[t]);
    BatchOfTx(maxEvents, s.txs[t]);
  }

  lemma OnlyCommitsTouchTables(maxEvents: int, s: State, a: Action)
    ensures var s' := Apply(maxEvents, s, a);
      s'.tables == s.tables ||
      (!a.Call? && a.t in s.txs && MayCommit(s.txs[a.t].pc) && s'.tables == CommitTables(s.tables, s.txs[a.t]) &&
       a.t in s'.txs && s'.txs[a.t].applied)
  {
  }

  ghost predicate SameCall(a: Tx, b: Tx) {
    a.id == b.id && a.expected == b.expected && a.batch == b.batch && a.floor == b.floor &&
    (a.applied ==> b.applied) && (a.pc.Finished? ==> a == b)
  }

  lemma StatementKeepsCall(s: State, t: TxId, u: TxId)
    requires t in s.txs && u in s.txs
    ensures u in Statement(s, t).txs && SameCall(s.txs[u], Statement(s, t).txs[u])
  {
    match s.txs[t].pc
    case InsertHead =>
    case Fence =>
    case FenceWait =>
    case Commit =>
    case _ =>
  }

  /** A call never changes, its COMMIT takes effect at most once, and its answer is final. */
  lemma AppliedOnce(maxEvents: int, s: State, a: Action, t: TxId)
    requires t in s.txs
    ensures t in Apply(maxEvents, s, a).txs && SameCall(s.txs[t], Apply(maxEvents, s, a).txs[t])
  {
    if a.Advance? && a.t in s.txs {
      StatementKeepsCall(s, a.t, t);
    }
  }

  lemma AppliedBatchIsStored(maxEvents: int, tables: Tables, tx: Tx)
    requires GoodTables(tables) && AppliedFits(tables, tx) && tx.applied
    ensures var stream := StreamOf(tables, tx.id);
      0 <= tx.expected <= tx.expected + |tx.batch| <= |stream| &&
      stream[tx.expected..tx.expected + |tx.batch|] == tx.batch
  {
    var part := StreamOf(tables, tx.id)[tx.expected..tx.expected + |tx.batch|];
    forall k | 0 <= k < |tx.batch| ensures part[k] == tx.batch[k] {
      assert tx.expected + k + 1 in NewRows(tx.expected, tx.batch);
    }
  }

  /**
   * What each answer tells its caller, in every later state: success means that the batch is in its
   * stream where it aimed; a conflict or a refusal before COMMIT means that nothing of it was stored;
   * and a caller whose expected version came from an earlier load learns a strictly greater version.
   */
  lemma AnswersAreTrue(maxEvents: int, actions: seq<Action>, t: TxId)
    requires t in Run(maxEvents, actions).txs && Run(maxEvents, actions).txs[t].pc.Finished?
    ensures Inv(maxEvents, Run(maxEvents, actions))
    ensures var s := Run(maxEvents, actions);
      var tx := s.txs[t];
      var stream := StreamOf(s.tables, tx.id);
      (tx.pc.reply.Appended? ==>
        if tx.batch == [] then !tx.applied
        else tx.applied && 0 <= tx.expected <= tx.expected + |tx.batch| <= |stream| &&
             stream[tx.expected..tx.expected + |tx.batch|] == tx.batch) &&
      (tx.pc.reply.Conflict? ==>
        !tx.applied && tx.floor <= tx.pc.reply.actual <= |stream| &&
        (tx.floor >= tx.expected ==> tx.pc.reply.actual > tx.expected))
  {
    RunKeepsInv(maxEvents, actions);
    var s := Run(maxEvents, actions);
    assert TxFits(maxEvents, s, t, s.txs[t]) && AppliedFits(s.tables, s.txs[t]);
    AnswerIsTrue(maxEvents, s, t, s.txs[t]);
  }

  lemma AnswerIsTrue(maxEvents: int, s: State, t: TxId, tx: Tx)
    requires GoodTables(s.tables) && TxFits(maxEvents, s, t, tx) && AppliedFits(s.tables, tx) && tx.pc.Finished?
    ensures var stream := StreamOf(s.tables, tx.id);
      (tx.pc.reply.Appended? ==>
        if tx.batch == [] then !tx.applied
        else tx.applied && 0 <= tx.expected <= tx.expected + |tx.batch| <= |stream| &&
             stream[tx.expected..tx.expected + |tx.batch|] == tx.batch) &&
      (tx.pc.reply.Conflict? ==>
        !tx.applied && tx.floor <= tx.pc.reply.actual <= |stream| &&
        (tx.floor >= tx.expected ==> tx.pc.reply.actual > tx.expected))
  {
    if tx.applied { AppliedBatchIsStored(maxEvents, s.tables, tx); }
  }

  /** Two commits to one stream: one of them was over, and its batch stored, before the other began to write. */
  ghost predicate Apart(a: Tx, b: Tx) {
    a.applied && b.applied && a.id == b.id ==>
      a.expected + |a.batch| <= b.expected || b.expected + |b.batch| <= a.expected
  }

  lemma OnlyOneCommits(maxEvents: int, s: State, a: Action, t: TxId)
    requires t in Apply(maxEvents, s, a).txs && Apply(maxEvents, s, a).txs[t].applied
    ensures t in s.txs && (s.txs[t].applied || (a.t == t && MayCommit(s.txs[t].pc)))
  {
  }

  lemma PlaceOfTx(maxEvents: int, s: State, t: TxId)
    requires Inv(maxEvents, s) && t in s.txs
    ensures s.txs[t].applied ==> s.txs[t].expected + |s.txs[t].batch| <= HeadOf(s.tables, s.txs[t].id)
    ensures MayCommit(s.txs[t].pc) ==> s.txs[t].expected == HeadOf(s.tables, s.txs[t].id)
  {
    assert TxFits(maxEvents, s, t, s.txs[t]) && AppliedFits(s.tables, s.txs[t]);
  }

  lemma ApplyKeepsApart(maxEvents: int, s: State, a: Action, t: TxId, u: TxId)
    requires Inv(maxEvents, s) && t != u && t in Apply(maxEvents, s, a).txs && u in Apply(maxEvents, s, a).txs
    requires t in s.txs && u in s.txs ==> Apart(s.txs[t], s.txs[u])
    ensures Apart(Apply(maxEvents, s, a).txs[t], Apply(maxEvents, s, a).txs[u])
  {
    var s' := Apply(maxEvents, s, a);
    if s'.txs[t].applied && s'.txs[u].applied {
      OnlyOneCommits(maxEvents, s, a, t);
      OnlyOneCommits(maxEvents, s, a, u);
      AppliedOnce(maxEvents, s, a, t);
      AppliedOnce(maxEvents, s, a, u);
      PlaceOfTx(maxEvents, s, t);
      PlaceOfTx(maxEvents, s, u);
    }
  }

  /** No two applied commits overlap: each place in a stream was written by one transaction. */
  lemma {:induction false} CommitsAreApart(maxEvents: int, actions: seq<Action>, t: TxId, u: TxId)
    requires t in Run(maxEvents, actions).txs && u in Run(maxEvents, actions).txs && t != u
    ensures Apart(Run(maxEvents, actions).txs[t], Run(maxEvents, actions).txs[u])
  {
    var init, a := actions[..|actions| - 1], actions[|actions| - 1];
    RunKeepsInv(maxEvents, init);
    if t in Run(maxEvents, init).txs && u in Run(maxEvents, init).txs {
      CommitsAreApart(maxEvents, init, t, u);
    }
    ApplyKeepsApart(maxEvents, Run(maxEvents, init), a, t, u);
  }

  /** A fence is lost only at a moment when the committed version differs from the expected one. */
  lemma FenceIsLostToAnotherVersion(maxEvents: int, actions: seq<Action>, t: TxId)
    requires t in Run(maxEvents, actions).txs
    requires Run(maxEvents, actions).txs[t].pc.Fence? || Run(maxEvents, actions).txs[t].pc.FenceWait?
    requires Statement(Run(maxEvents, actions), t).txs[t].pc.ReadActual?
    ensures var s := Run(maxEvents, actions);
      HeadOf(s.tables, s.txs[t].id) != s.txs[t].expected &&
      Statement(s, t).txs[t].pc.seen == HeadOf(s.tables, s.txs[t].id)
  {
    RunKeepsInv(maxEvents, actions);
    var s := Run(maxEvents, actions);
    assert TxFits(maxEvents, s, t, s.txs[t]);
  }

  /** Every committed head is at least one and has event rows exactly one to that head. */
  lemma HeadsMatchRows(maxEvents: int, actions: seq<Action>, id: Id)
    ensures var tables := Run(maxEvents, actions).tables;
      (id in tables.heads ==> tables.heads[id] >= 1) &&
      forall v :: v in RowsOf(tables, id) <==> 1 <= v <= HeadOf(tables, id)
  {
    RunKeepsInv(maxEvents, actions);
    var tables := Run(maxEvents, actions).tables;
    assert GoodRows(id, HeadOf(tables, id), RowsOf(tables, id));
  }

  lemma ApplyKeepsBound(maxEvents: int, s: State, a: Action, id: Id)
    requires Inv(maxEvents, s) && HeadOf(s.tables, id) <= maxEvents
    ensures HeadOf(Apply(maxEvents, s, a).tables, id) <= maxEvents
  {
    OnlyCommitsTouchTables(maxEvents, s, a);
    if Apply(maxEvents, s, a).tables != s.tables {
      var tx := s.txs[a.t];
      assert TxFits(maxEvents, s, a.t, tx);
      BatchOfTx(maxEvents, tx);
      assert HeadOf(CommitTables(s.tables, tx), id) ==
        if id == tx.id then tx.expected + |tx.batch| else HeadOf(s.tables, id);
    }
  }

  ghost predicate RowsPass(tables: Tables, id: Id) {
    forall v | v in RowsOf(tables, id) :: PassesCheck(RowsOf(tables, id)[v])
  }

  lemma CommitKeepsRowsPassing(tables: Tables, tx: Tx, id: Id)
    requires RowsPass(tables, id) && AllPass(tx.batch)
    ensures RowsPass(CommitTables(tables, tx), id)
  {
    if id == tx.id {
      var rows := RowsOf(CommitTables(tables, tx), id);
      forall v | v in rows ensures PassesCheck(rows[v]) {
        if v in NewRows(tx.expected, tx.batch) {
          assert PassesCheck(tx.batch[v - tx.expected - 1]);
        } else {
          assert v in RowsOf(tables, id);
        }
      }
    } else {
      assert RowsOf(CommitTables(tables, tx), id) == RowsOf(tables, id);
    }
  }

  /** Every committed event passes the CHECK of its column, whoever wrote it. */
  lemma {:induction false} CommittedRowsPassTheCheck(maxEvents: int, actions: seq<Action>, id: Id)
    ensures RowsPass(Run(maxEvents, actions).tables, id)
  {
    if actions != [] {
      var before, a := Run(maxEvents, actions[..|actions| - 1]), actions[|actions| - 1];
      CommittedRowsPassTheCheck(maxEvents, actions[..|actions| - 1], id);
      RunKeepsInv(maxEvents, actions[..|actions| - 1]);
      OnlyCommitsTouchTables(maxEvents, before, a);
      if Apply(maxEvents, before, a).tables != before.tables {
        CommittingTx(maxEvents, before, a.t);
        CommitKeepsRowsPassing(before.tables, before.txs[a.t], id);
      }
    }
  }

  /** No reachable head passes the configured bound. */
  lemma {:induction false} HeadsStayWithinBound(maxEvents: nat, actions: seq<Action>, id: Id)
    ensures HeadOf(Run(maxEvents, actions).tables, id) <= maxEvents
  {
    if actions != [] {
      HeadsStayWithinBound(maxEvents, actions[..|actions| - 1], id);
      RunKeepsInv(maxEvents, actions[..|actions| - 1]);
      ApplyKeepsBound(maxEvents, Run(maxEvents, actions[..|actions| - 1]), actions[|actions| - 1], id);
    }
  }

  /** Two transactions never hold the same stream's head row at once. */
  lemma HeadRowsAreExclusive(maxEvents: int, actions: seq<Action>, t: TxId, u: TxId)
    requires t in Run(maxEvents, actions).txs && u in Run(maxEvents, actions).txs && t != u
    requires Run(maxEvents, actions).txs[t].ownHead.Some? && Run(maxEvents, actions).txs[u].ownHead.Some?
    ensures Run(maxEvents, actions).txs[t].id != Run(maxEvents, actions).txs[u].id
  {
    RunKeepsInv(maxEvents, actions);
    var s := Run(maxEvents, actions);
    assert TxFits(maxEvents, s, t, s.txs[t]) && TxFits(maxEvents, s, u, s.txs[u]);
  }

  // ---------------------------------------------------------------- progress

  function StatementsLeft(pc: Pc): nat {
    match pc
    case BeginTx => 6
    case InsertHead => 5
    case Fence => 4
    case FenceWait => 3
    case InsertRows => 2
    case ReadActual(_) => 2
    case Commit => 1
    case InDoubt => 1
    case Rollback(_) => 1
    case CompareOnly => 1
    case Finished(_) => 0
  }

  lemma StatementProgresses(s: State, t: TxId)
    requires t in s.txs && Statement(s, t) != s
    ensures t in Statement(s, t).txs && StatementsLeft(Statement(s, t).txs[t].pc) < StatementsLeft(s.txs[t].pc)
  {
    match s.txs[t].pc
    case InsertHead =>
    case Fence =>
    case FenceWait =>
    case Commit =>
    case _ =>
  }

  lemma OnlyLocksStop(s: State, t: TxId)
    requires t in s.txs && !s.txs[t].pc.Finished? && !Blocked(s, t, s.txs[t].id)
    ensures Statement(s, t) != s
  {
    assert Statement(s, t).txs[t].pc != s.txs[t].pc;
  }

  lemma HoldersRun(maxEvents: int, s: State, u: TxId)
    requires Inv(maxEvents, s) && u in s.txs && s.txs[u].ownHead.Some?
    ensures Statement(s, u) != s
  {
    var pc := s.txs[u].pc;
    assert TxFits(maxEvents, s, u, s.txs[u]);
    assert pc.Fence? || pc.InsertRows? || MayCommit(pc) || pc.Rollback?;
    assert Statement(s, u).txs[u].pc != pc;
  }

  /**
   * No deadlock: an unfinished transaction either comes closer to its answer with its next statement, of
   * which there are at most six, or waits for a row that another one holds which is not waiting itself.
   */
  lemma TransactionsProgress(maxEvents: int, actions: seq<Action>, t: TxId)
    requires t in Run(maxEvents, actions).txs && !Run(maxEvents, actions).txs[t].pc.Finished?
    ensures var s := Run(maxEvents, actions);
      if Statement(s, t) != s then
        t in Statement(s, t).txs && StatementsLeft(Statement(s, t).txs[t].pc) < StatementsLeft(s.txs[t].pc) <= 6
      else
        var id := s.txs[t].id;
        id in s.locks && s.locks[id] != t && s.locks[id] in s.txs && Statement(s, s.locks[id]) != s
  {
    var s := Run(maxEvents, actions);
    RunKeepsInv(maxEvents, actions);
    if Statement(s, t) != s {
      StatementProgresses(s, t);
    } else {
      if !Blocked(s, t, s.txs[t].id) { OnlyLocksStop(s, t); }
      HoldersRun(maxEvents, s, s.locks[s.txs[t].id]);
    }
  }

  // ---------------------------------------------------------------- runs that go on

  function ApplyAll(maxEvents: int, s: State, more: seq<Action>): State
    decreases |more|
  {
    if more == [] then s else ApplyAll(maxEvents, Apply(maxEvents, s, more[0]), more[1..])
  }

  lemma {:induction false} RunGoesOn(maxEvents: int, first: seq<Action>, more: seq<Action>)
    ensures Run(maxEvents, first + more) == ApplyAll(maxEvents, Run(maxEvents, first), more)
    decreases |more|
  {
    if more == [] {
      assert first + more == first;
    } else {
      assert first + more == first + [more[0]] + more[1..];
      assert (first + [more[0]])[..|first|] == first;
      RunGoesOn(maxEvents, first + [more[0]], more[1..]);
    }
  }

  lemma {:induction false} ApplyAllSplits(maxEvents: int, s: State, a: seq<Action>, b: seq<Action>)
    ensures ApplyAll(maxEvents, s, a + b) == ApplyAll(maxEvents, ApplyAll(maxEvents, s, a), b)
    decreases |a|
  {
    if a == [] {
      assert a + b == b;
    } else {
      assert (a + b)[0] == a[0] && (a + b)[1..] == a[1..] + b;
      ApplyAllSplits(maxEvents, Apply(maxEvents, s, a[0]), a[1..], b);
    }
  }

  lemma {:induction false} ApplyAllKeepsInv(maxEvents: int, s: State, more: seq<Action>)
    requires Inv(maxEvents, s)
    ensures Inv(maxEvents, ApplyAll(maxEvents, s, more))
    decreases |more|
  {
    if more != [] {
      ApplyKeepsInv(maxEvents, s, more[0]);
      ApplyAllKeepsInv(maxEvents, Apply(maxEvents, s, more[0]), more[1..]);
    }
  }

  lemma {:induction false} CallStays(maxEvents: int, s: State, more: seq<Action>, t: TxId)
    requires t in s.txs
    ensures t in ApplyAll(maxEvents, s, more).txs && SameCall(s.txs[t], ApplyAll(maxEvents, s, more).txs[t])
    decreases |more|
  {
    if more != [] {
      AppliedOnce(maxEvents, s, more[0], t);
      CallStays(maxEvents, Apply(maxEvents, s, more[0]), more[1..], t);
    }
  }
}
