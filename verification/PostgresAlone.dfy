/**
 * One append on its own: the statements of the PostgreSQL transaction, run without interference, have the
 * effect and the answer by which the stores are compared.
 */
module PostgresAlone {
  import opened Domain
  import opened EventLog
  import opened PostgresAppend
  import opened PostgresCheck
  import opened PostgresRuns

  /** The next n statements of one transaction, with nobody else moving. */
  function Steps(maxEvents: int, s: State, t: TxId, n: nat): State
    decreases n
  {
    if n == 0 then s else Steps(maxEvents, Apply(maxEvents, s, Advance(t)), t, n - 1)
  }

  function Times(t: TxId, n: nat): seq<Action> {
    if n == 0 then [] else [Advance(t)] + Times(t, n - 1)
  }

  lemma {:induction false} StepsAreActions(maxEvents: int, s: State, t: TxId, n: nat)
    ensures Steps(maxEvents, s, t, n) == ApplyAll(maxEvents, s, Times(t, n))
    decreases n
  {
    if n > 0 {
      assert Times(t, n)[1..] == Times(t, n - 1);
      StepsAreActions(maxEvents, Apply(maxEvents, s, Advance(t)), t, n - 1);
    }
  }

  function Three(maxEvents: int, s: State, a: Action, b: Action, c: Action): State {
    Apply(maxEvents, Apply(maxEvents, Apply(maxEvents, s, a), b), c)
  }

  /** What the caller of append is told: nothing on success, else the error. */
  function ErrorOf(id: Id, expected: int, reply: Reply): Option<Error> {
    match reply
    case Appended => None
    case Conflict(actual) => Some(VersionConflict(id, expected, actual))
    case Failed(e) => Some(e)
  }

  lemma {:induction false} FinishedStays(maxEvents: int, s: State, t: TxId, n: nat)
    requires t in s.txs && s.txs[t].pc.Finished?
    ensures Steps(maxEvents, s, t, n) == s
    decreases n
  {
    if n > 0 { FinishedStays(maxEvents, s, t, n - 1); }
  }

  lemma FiveSteps(maxEvents: int, s: State, t: TxId)
    ensures Steps(maxEvents, s, t, 5) ==
      Three(maxEvents, Apply(maxEvents, Apply(maxEvents, s, Advance(t)), Advance(t)),
            Advance(t), Advance(t), Advance(t))
  {
    var s1 := Apply(maxEvents, s, Advance(t));
    var s2 := Apply(maxEvents, s1, Advance(t));
    var s3 := Apply(maxEvents, s2, Advance(t));
    var s4 := Apply(maxEvents, s3, Advance(t));
    assert Steps(maxEvents, s4, t, 1) == Steps(maxEvents, Apply(maxEvents, s4, Advance(t)), t, 0);
    assert Steps(maxEvents, s2, t, 3) == Steps(maxEvents, s3, t, 2) == Steps(maxEvents, s4, t, 1);
    assert Steps(maxEvents, s, t, 5) == Steps(maxEvents, s1, t, 4) == Steps(maxEvents, s2, t, 3);
  }

  ghost predicate Quiet(maxEvents: int, s: State, t: TxId, tx: Tx) {
    GoodTables(s.tables) && tx.id !in s.locks && tx.batch != [] && tx.pc.BeginTx? && tx.ownHead.None? && !tx.applied &&
    Prevalidate(tx.id, tx.expected, tx.batch, maxEvents).None?
  }

  /** A stale append loses its fence, reads the head and rolls back. */
  lemma LoneConflict(maxEvents: int, s: State, t: TxId, tx: Tx)
    requires Quiet(maxEvents, s, t, tx) && HeadOf(s.tables, tx.id) != tx.expected
    ensures Steps(maxEvents, Put(s, t, tx), t, 5) ==
      Put(s, t, tx.(pc := Finished(Conflict(HeadOf(s.tables, tx.id)))))
  {
    var head := HeadOf(s.tables, tx.id);
    FiveSteps(maxEvents, Put(s, t, tx), t);
    if tx.expected == 0 {
      assert Apply(maxEvents, Put(s, t, tx), Advance(t)) == Put(s, t, tx.(pc := InsertHead));
      assert Apply(maxEvents, Put(s, t, tx.(pc := InsertHead)), Advance(t)) == Put(s, t, tx.(pc := Fence));
      LostFence(maxEvents, s, t, tx);
    } else {
      assert Apply(maxEvents, Put(s, t, tx), Advance(t)) == Put(s, t, tx.(pc := Fence));
      LostFence(maxEvents, s, t, tx);
    }
  }

  /** From the fence on: one statement to lose it, one to read the head, one to roll back, and nothing more. */
  lemma LostFence(maxEvents: int, s: State, t: TxId, tx: Tx)
    requires tx.id !in s.locks && tx.ownHead.None? && HeadOf(s.tables, tx.id) != tx.expected
    ensures var fence := Put(s, t, tx.(pc := Fence));
      var done := Put(s, t, tx.(pc := Finished(Conflict(HeadOf(s.tables, tx.id)))));
      Three(maxEvents, fence, Advance(t), Advance(t), Advance(t)) == done &&
      Three(maxEvents, Apply(maxEvents, fence, Advance(t)), Advance(t), Advance(t), Advance(t)) == done
  {
    var head := HeadOf(s.tables, tx.id);
    assert Statement(Put(s, t, tx.(pc := Fence)), t) == Put(s, t, tx.(pc := ReadActual(head)));
    assert Statement(Put(s, t, tx.(pc := ReadActual(head))), t) == Put(s, t, tx.(pc := Rollback(Conflict(head))));
    assert Statement(Put(s, t, tx.(pc := Rollback(Conflict(head)))), t) ==
      Put(s, t, tx.(pc := Finished(Conflict(head))));
  }

  /** The first three statements of an up-to-date append win the head row. */
  lemma LoneFence(maxEvents: int, s: State, t: TxId, tx: Tx)
    requires Quiet(maxEvents, s, t, tx) && HeadOf(s.tables, tx.id) == tx.expected
    ensures Three(maxEvents, Put(s, t, tx), Advance(t), Advance(t), Advance(t)) == Put(Lock(s, tx.id, t), t, Winner(tx))
  {
    assert GoodRows(tx.id, HeadOf(s.tables, tx.id), RowsOf(s.tables, tx.id));
    if tx.expected == 0 {
      HeadInserted(maxEvents, s, t, tx, Winner(tx));
    } else {
      HeadLocked(maxEvents, s, t, tx, Winner(tx));
    }
  }

  /** The transaction that has the head row and is about to insert its event rows. */
  function Winner(tx: Tx): Tx { tx.(ownHead := Some(tx.expected + |tx.batch|), pc := InsertRows) }

  /** It inserts its rows and commits. */
  lemma LoneCommit(maxEvents: int, s: State, t: TxId, tx: Tx)
    requires Quiet(maxEvents, s, t, tx) && HeadOf(s.tables, tx.id) == tx.expected && AllPass(tx.batch)
    ensures var done := Steps(maxEvents, Put(s, t, tx), t, 5);
      done.tables == CommitTables(s.tables, tx) && done.locks == s.locks &&
      done.txs == s.txs[t := tx.(applied := true, pc := Finished(Appended))]
  {
    FiveStepsAre(maxEvents, Put(s, t, tx), t);
    LoneFence(maxEvents, s, t, tx);
    RowsEndAtHead(s.tables, tx.id);
    WonFence(s, t, tx, Winner(tx));
  }

  /** It inserts a row that the CHECK does not pass, and rolls back. */
  lemma LoneCheckFails(maxEvents: int, s: State, t: TxId, tx: Tx)
    requires Quiet(maxEvents, s, t, tx) && HeadOf(s.tables, tx.id) == tx.expected && !AllPass(tx.batch)
    ensures Steps(maxEvents, Put(s, t, tx), t, 5) == Put(s, t, tx.(pc := Finished(Failed(StoreFailed))))
  {
    FiveStepsAre(maxEvents, Put(s, t, tx), t);
    LoneFence(maxEvents, s, t, tx);
    CheckFails(s, t, tx);
  }

  lemma CheckFails(s: State, t: TxId, tx: Tx)
    requires tx.id !in s.locks && tx.ownHead.None? && !AllPass(tx.batch)
    ensures var failed := Statement(Put(Lock(s, tx.id, t), t, Winner(tx)), t);
      t in failed.txs && Statement(failed, t) == Put(s, t, tx.(pc := Finished(Failed(StoreFailed))))
  {
    var failed := Put(Lock(s, tx.id, t), t, Winner(tx).(pc := Rollback(Failed(StoreFailed))));
    assert Statement(Put(Lock(s, tx.id, t), t, Winner(tx)), t) == failed;
    assert Unlock(failed, tx.id, t).locks == s.locks;
  }

  lemma FiveStepsAre(maxEvents: int, s: State, t: TxId)
    ensures Steps(maxEvents, s, t, 5) ==
      Apply(maxEvents, Apply(maxEvents, Three(maxEvents, s, Advance(t), Advance(t), Advance(t)), Advance(t)),
            Advance(t))
  {
    FiveSteps(maxEvents, s, t);
  }

  /** The first three statements on a stream that does not exist yet. */
  lemma HeadInserted(maxEvents: int, s: State, t: TxId, tx: Tx, won: Tx)
    requires tx.id !in s.locks && tx.pc.BeginTx? && tx.ownHead.None? && tx.expected == 0 && tx.id !in s.tables.heads
    requires won == tx.(ownHead := Some(|tx.batch|), pc := InsertRows)
    ensures Three(maxEvents, Put(s, t, tx), Advance(t), Advance(t), Advance(t)) == Put(Lock(s, tx.id, t), t, won)
  {
    var inserted := tx.(ownHead := Some(0), pc := Fence);
    assert Statement(Put(s, t, tx), t) == Put(s, t, tx.(pc := InsertHead));
    assert Statement(Put(s, t, tx.(pc := InsertHead)), t) == Put(Lock(s, tx.id, t), t, inserted);
    assert Statement(Put(Lock(s, tx.id, t), t, inserted), t) == Put(Lock(s, tx.id, t), t, won);
  }

  /** The first three statements on a stream that is where the caller expects it. */
  lemma HeadLocked(maxEvents: int, s: State, t: TxId, tx: Tx, won: Tx)
    requires tx.id !in s.locks && tx.pc.BeginTx? && tx.ownHead.None? && tx.expected != 0
    requires tx.id in s.tables.heads && s.tables.heads[tx.id] == tx.expected
    requires won == tx.(ownHead := Some(tx.expected + |tx.batch|), pc := InsertRows)
    ensures Three(maxEvents, Put(s, t, tx), Advance(t), Advance(t), Advance(t)) == Put(Lock(s, tx.id, t), t, won)
  {
    assert Statement(Put(s, t, tx), t) == Put(s, t, tx.(pc := Fence));
    assert Statement(Put(s, t, tx.(pc := Fence)), t) == Put(s, t, tx.(pc := FenceWait));
    assert Statement(Put(s, t, tx.(pc := FenceWait)), t) == Put(Lock(s, tx.id, t), t, won);
  }

  ghost predicate NoneAbove(rows: map<int, Event>, n: int) { forall v | v in rows :: v <= n }

  lemma RowsEndAtHead(tables: Tables, id: Id)
    requires GoodTables(tables)
    ensures NoneAbove(RowsOf(tables, id), HeadOf(tables, id))
  {
    assert GoodRows(id, HeadOf(tables, id), RowsOf(tables, id));
  }

  lemma RowsInserted(s: State, t: TxId)
    requires t in s.txs && s.txs[t].pc.InsertRows? && AllPass(s.txs[t].batch)
    requires NoneAbove(RowsOf(s.tables, s.txs[t].id), s.txs[t].expected)
    ensures Statement(s, t) == Put(s, t, s.txs[t].(pc := Commit))
  {
  }

  lemma WonFence(s: State, t: TxId, tx: Tx, won: Tx)
    requires tx.id !in s.locks && tx.ownHead.None? && AllPass(tx.batch)
    requires won == tx.(ownHead := Some(tx.expected + |tx.batch|), pc := InsertRows)
    requires NoneAbove(RowsOf(s.tables, tx.id), tx.expected)
    ensures var s1 := Statement(Put(Lock(s, tx.id, t), t, won), t);
      t in s1.txs &&
      var s2 := Statement(s1, t);
      s2.tables == CommitTables(s.tables, tx) && s2.locks == s.locks &&
      s2.txs == s.txs[t := tx.(applied := true, pc := Finished(Appended))]
  {
    RowsInserted(Put(Lock(s, tx.id, t), t, won), t);
  }

  /** Where an append ends up that nothing interferes with. */
  function LoneEnd(maxEvents: int, s: State, t: TxId, tx: Tx): State {
    var actual := HeadOf(s.tables, tx.id);
    var reply :=
      if actual != tx.expected then Conflict(actual)
      else if AllPass(tx.batch) then Appended
      else Failed(StoreFailed);
    if tx.pc.Finished? then Put(s, t, tx)
    else if tx.pc.CompareOnly? || reply != Appended then Put(s, t, tx.(pc := Finished(reply)))
    else State(CommitTables(s.tables, tx), s.locks, s.txs[t := tx.(applied := true, pc := Finished(Appended))])
  }

  lemma LoneAppendEnds(maxEvents: int, s: State, t: TxId, tx: Tx)
    requires tx.pc.Finished? || (tx.pc.CompareOnly? && tx.batch == []) || Quiet(maxEvents, s, t, tx)
    ensures Steps(maxEvents, Put(s, t, tx), t, 5) == LoneEnd(maxEvents, s, t, tx)
  {
    if tx.pc.Finished? {
      FinishedStays(maxEvents, Put(s, t, tx), t, 5);
    } else if tx.pc.CompareOnly? {
      LoneComparison(maxEvents, s, t, tx);
    } else if HeadOf(s.tables, tx.id) != tx.expected {
      LoneConflict(maxEvents, s, t, tx);
    } else if AllPass(tx.batch) {
      LoneCommit(maxEvents, s, t, tx);
    } else {
      LoneCheckFails(maxEvents, s, t, tx);
    }
  }

  /** The transaction ended with the log and the answer of this validated compare-and-append. */
  ghost predicate EndsAs(s: State, done: State, t: TxId, id: Id, expected: int, result: EventLog.Appended)
    requires GoodTables(s.tables)
  {
    GoodTables(done.tables) && t in done.txs && done.txs[t].pc.Finished? &&
    match result
    case Stored(log) => LogOf(done.tables) == log && ErrorOf(id, expected, done.txs[t].pc.reply).None?
    case Refused(e) => done.tables == s.tables && ErrorOf(id, expected, done.txs[t].pc.reply) == Some(e)
  }

  lemma LoneEndIs(maxEvents: int, s: State, t: TxId, id: Id, expected: int, batch: seq<Event>)
    requires GoodTables(s.tables)
    ensures var done := LoneEnd(maxEvents, s, t, NewTx(s, id, expected, batch, maxEvents));
      var result := ValidatedAppend(LogOf(s.tables), id, expected, batch, maxEvents);
      if result.Refused? || AllPass(batch) then EndsAs(s, done, t, id, expected, result)
      else EndsAs(s, done, t, id, expected, Refused(StoreFailed))
  {
    assert |Stream(LogOf(s.tables), id)| == |StreamOf(s.tables, id)| == HeadOf(s.tables, id);
    if Prevalidate(id, expected, batch, maxEvents).None? && batch != [] && HeadOf(s.tables, id) == expected {
      LoneCommitIs(maxEvents, s, t, id, expected, batch);
    }
  }

  lemma LoneCommitIs(maxEvents: int, s: State, t: TxId, id: Id, expected: int, batch: seq<Event>)
    requires GoodTables(s.tables) && batch != [] && HeadOf(s.tables, id) == expected
    requires Prevalidate(id, expected, batch, maxEvents).None?
    ensures var done := LoneEnd(maxEvents, s, t, NewTx(s, id, expected, batch, maxEvents));
      var result := CompareAndAppend(LogOf(s.tables), id, expected, batch);
      result.Stored? && EndsAs(s, done, t, id, expected, if AllPass(batch) then result else Refused(StoreFailed))
  {
    BatchPassesExactly(id, expected, batch);
    CommitIsOneAppend(s.tables, NewTx(s, id, expected, batch, maxEvents));
  }

  /**
   * On any reachable tables, an append that is left alone is over within five statements. Log and answer are
   * those of one validated compare-and-append exactly if that refuses the batch, or every event of the batch
   * passes the CHECK of its column; otherwise the append fails and changes nothing.
   */
  lemma LoneAppendBehaves(maxEvents: int, s: State, t: TxId, id: Id, expected: int, batch: seq<Event>)
    requires Inv(maxEvents, s) && t !in s.txs && id !in s.locks
    ensures var done := Steps(maxEvents, Apply(maxEvents, s, Call(t, id, expected, batch)), t, 5);
      var result := ValidatedAppend(LogOf(s.tables), id, expected, batch, maxEvents);
      GoodTables(done.tables) && done.locks == s.locks && t in done.txs && done.txs == s.txs[t := done.txs[t]] &&
      done.txs[t].pc.Finished? &&
      (EndsAs(s, done, t, id, expected, result) <==> result.Refused? || AllPass(batch)) &&
      (!(result.Refused? || AllPass(batch)) ==> EndsAs(s, done, t, id, expected, Refused(StoreFailed)))
  {
    var tx := NewTx(s, id, expected, batch, maxEvents);
    assert Apply(maxEvents, s, Call(t, id, expected, batch)) == Put(s, t, tx);
    LoneAppendEnds(maxEvents, s, t, tx);
    LoneEndIs(maxEvents, s, t, id, expected, batch);
  }

  /** An empty append only compares. */
  lemma LoneComparison(maxEvents: int, s: State, t: TxId, tx: Tx)
    requires tx.pc.CompareOnly?
    ensures var actual := HeadOf(s.tables, tx.id);
      Steps(maxEvents, Put(s, t, tx), t, 5) ==
        Put(s, t, tx.(pc := Finished(if actual == tx.expected then Appended else Conflict(actual))))
  {
    var next := Apply(maxEvents, Put(s, t, tx), Advance(t));
    assert next == Put(s, t, next.txs[t]);
    FinishedStays(maxEvents, next, t, 4);
  }
}
