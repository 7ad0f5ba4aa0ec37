/**
 * The version a conflict reports is read after the fence was lost. This says exactly which callers can be
 * told of a conflict with the very version they expected.
 */
module PostgresConflicts {
  import opened Domain
  import opened EventLog
  import opened PostgresAppend
  import opened PostgresCheck
  import opened PostgresRuns
  import opened PostgresAlone

  ghost predicate NamesExpected(s: State, t: TxId) {
    t in s.txs && s.txs[t].pc == Finished(Conflict(s.txs[t].expected))
  }

  // ---------------------------------------------------------------- who cannot be told so

  /** A stream with events has an id that passes the CHECK of each of them. */
  lemma StreamsAreClear(maxEvents: int, actions: seq<Action>, id: Id)
    ensures HeadOf(Run(maxEvents, actions).tables, id) > 0 ==> IsClear(id)
  {
    var tables := Run(maxEvents, actions).tables;
    RunKeepsInv(maxEvents, actions);
    CommittedRowsPassTheCheck(maxEvents, actions, id);
    assert GoodRows(id, HeadOf(tables, id), RowsOf(tables, id));
    if HeadOf(tables, id) > 0 {
      assert 1 in RowsOf(tables, id);
    }
  }

  /** Only a caller that was ahead of the committed head, with events to append, can be told so. */
  lemma OnlyGuessesAreNamed(
    maxEvents: int, actions: seq<Action>, t: TxId, id: Id, expected: int, batch: seq<Event>, more: seq<Action>)
    requires t !in Run(maxEvents, actions).txs
    requires NamesExpected(Run(maxEvents, actions + ([Call(t, id, expected, batch)] + more)), t)
    ensures batch != [] && Prevalidate(id, expected, batch, maxEvents).None?
    ensures expected > HeadOf(Run(maxEvents, actions).tables, id) && IsClear(id)
  {
    var s := Run(maxEvents, actions);
    StreamsAreClear(maxEvents, actions + ([Call(t, id, expected, batch)] + more), id);
    assert GoodRows(id, HeadOf(s.tables, id), RowsOf(s.tables, id)) by { RunKeepsInv(maxEvents, actions); }
    var called := Apply(maxEvents, s, Call(t, id, expected, batch));
    RunGoesOn(maxEvents, actions, [Call(t, id, expected, batch)] + more);
    assert ([Call(t, id, expected, batch)] + more)[1..] == more;
    CallStays(maxEvents, called, more, t);
    var end := ApplyAll(maxEvents, called, more);
    RunKeepsInv(maxEvents, actions);
    ApplyKeepsInv(maxEvents, s, Call(t, id, expected, batch));
    ApplyAllKeepsInv(maxEvents, called, more);
    assert TxFits(maxEvents, end, t, end.txs[t]);
  }

  // ---------------------------------------------------------------- who can

  /** An event that anybody could append at a version: an expiry, say. */
  function Filler(id: Id, version: int): Event { WasExpired(SCHEMA_VERSION, id, version, 0) }

  function Fillers(id: Id, head: int, n: nat): (r: seq<Event>)
    ensures |r| == n && forall k | 0 <= k < n :: r[k] == Filler(id, head + k + 1)
  {
    seq(n, k requires 0 <= k < n => Filler(id, head + k + 1))
  }

  lemma FillersFit(id: Id, head: int, n: nat, maxEvents: int)
    requires id != [] && IsClear(id) && 0 <= head && head + n <= maxEvents && head + n <= MAX_SAFE
    ensures Prevalidate(id, head, Fillers(id, head, n), maxEvents).None? && AllPass(Fillers(id, head, n))
  {
    BatchPassesExactly(id, head, Fillers(id, head, n));
  }

  lemma {:induction false} SomeTxIsFresh(taken: set<TxId>) returns (w: TxId)
    ensures forall t | t in taken :: t < w
  {
    if |taken| == 0 {
      w := 0;
    } else {
      var t :| t in taken;
      w := SomeTxIsFresh(taken - {t});
      assert forall u | u in taken :: u == t || u in taken - {t};
      w := if t >= w then t + 1 else w;
    }
  }

  function Release(s: State, id: Id): seq<Action> {
    if id !in s.locks then []
    else
      var u := s.locks[id];
      [Fail(u), LoseCommitAnswer(u, false), Advance(u)]
  }

  lemma ThreeActions(maxEvents: int, s: State, a: Action, b: Action, c: Action)
    ensures ApplyAll(maxEvents, s, [a, b, c]) == Three(maxEvents, s, a, b, c)
  {
    assert [a, b, c][1..] == [b, c] && [b, c][1..] == [c] && [c][1..] == [];
    assert ApplyAll(maxEvents, Three(maxEvents, s, a, b, c), []) == Three(maxEvents, s, a, b, c);
    assert ApplyAll(maxEvents, Apply(maxEvents, Apply(maxEvents, s, a), b), [c]) == Three(maxEvents, s, a, b, c);
  }

  /** Whoever holds a head row can fail, which frees the row and changes no table. */
  lemma LocksCanBeFreed(maxEvents: int, s: State, id: Id)
    requires Inv(maxEvents, s)
    ensures var n := ApplyAll(maxEvents, s, Release(s, id));
      n.tables == s.tables && id !in n.locks && n.txs.Keys == s.txs.Keys &&
      forall t | t in s.txs && s.txs[t].ownHead.None? :: n.txs[t] == s.txs[t]
  {
    if id in s.locks {
      var u := s.locks[id];
      assert TxFits(maxEvents, s, u, s.txs[u]);
      ThreeActions(maxEvents, s, Fail(u), LoseCommitAnswer(u, false), Advance(u));
      HolderFails(maxEvents, s, u, id);
    }
  }

  lemma HolderFails(maxEvents: int, s: State, u: TxId, id: Id)
    requires u in s.txs && s.txs[u].id == id && id in s.locks && s.locks[id] == u
    requires var pc := s.txs[u].pc; pc.Fence? || pc.InsertRows? || MayCommit(pc) || pc.Rollback?
    ensures var n := Three(maxEvents, s, Fail(u), LoseCommitAnswer(u, false), Advance(u));
      n.tables == s.tables && id !in n.locks && u in n.txs && n.txs == s.txs[u := n.txs[u]]
  {
    var tx := s.txs[u];
    var reply := if tx.pc.Rollback? then tx.pc.reply else Failed(StoreFailed);
    var failing := Put(s, u, tx.(pc := Rollback(reply)));
    assert Apply(maxEvents, Apply(maxEvents, s, Fail(u)), LoseCommitAnswer(u, false)) == failing;
    assert Statement(failing, u).txs == s.txs[u := tx.(ownHead := None, pc := Finished(reply))];
  }

  /** A caller that is ahead loses its fence to whatever is committed. */
  lemma GuessLosesItsFence(maxEvents: int, s: State, t: TxId, id: Id, expected: int, batch: seq<Event>)
    requires t !in s.txs && batch != [] && Prevalidate(id, expected, batch, maxEvents).None?
    requires expected > HeadOf(s.tables, id) >= 0
    ensures var head := HeadOf(s.tables, id);
      ApplyAll(maxEvents, s, [Call(t, id, expected, batch), Advance(t), Advance(t)]) ==
        Put(s, t, Tx(id, expected, batch, head, None, false, ReadActual(head)))
  {
    var tx := Tx(id, expected, batch, HeadOf(s.tables, id), None, false, BeginTx);
    ThreeActions(maxEvents, s, Call(t, id, expected, batch), Advance(t), Advance(t));
    assert Apply(maxEvents, s, Call(t, id, expected, batch)) == Put(s, t, tx);
    assert Statement(Put(s, t, tx), t) == Put(s, t, tx.(pc := Fence));
    assert Statement(Put(s, t, tx.(pc := Fence)), t) == Put(s, t, tx.(pc := ReadActual(HeadOf(s.tables, id))));
  }

  /** Another client appends, alone, what the stream still lacks. */
  lemma OtherCatchesUp(maxEvents: int, s: State, w: TxId, id: Id, n: nat)
    requires Inv(maxEvents, s) && w !in s.txs && id !in s.locks && id != [] && IsClear(id) && n > 0
    requires HeadOf(s.tables, id) + n <= maxEvents && HeadOf(s.tables, id) + n <= MAX_SAFE
    ensures var head := HeadOf(s.tables, id);
      var end := ApplyAll(maxEvents, s, [Call(w, id, head, Fillers(id, head, n))] + Times(w, 5));
      HeadOf(end.tables, id) == head + n && end.txs.Keys == s.txs.Keys + {w} &&
      (forall t | t in s.txs :: end.txs[t] == s.txs[t])
  {
    var head := HeadOf(s.tables, id);
    var batch := Fillers(id, head, n);
    var call := Call(w, id, head, batch);
    var tx := Tx(id, head, batch, head, None, false, BeginTx);
    assert GoodRows(id, head, RowsOf(s.tables, id));
    FillersFit(id, head, n, maxEvents);
    assert Apply(maxEvents, s, call) == Put(s, w, tx);
    assert ([call] + Times(w, 5))[1..] == Times(w, 5);
    StepsAreActions(maxEvents, Put(s, w, tx), w, 5);
    LoneCommit(maxEvents, s, w, tx);
  }

  lemma ActualIsRead(maxEvents: int, s: State, t: TxId)
    requires t in s.txs && s.txs[t].pc.ReadActual? && s.txs[t].ownHead.None?
    ensures ApplyAll(maxEvents, s, Times(t, 2)).txs ==
      s.txs[t := s.txs[t].(pc := Finished(Conflict(HeadOf(s.tables, s.txs[t].id))))]
  {
    StepsAreActions(maxEvents, s, t, 2);
    var read := Put(s, t, s.txs[t].(pc := Rollback(Conflict(HeadOf(s.tables, s.txs[t].id)))));
    assert Statement(s, t) == read;
    var done := Statement(read, t);
    assert done.txs == s.txs[t := s.txs[t].(pc := Finished(Conflict(HeadOf(s.tables, s.txs[t].id))))];
    assert Steps(maxEvents, read, t, 1) == Steps(maxEvents, done, t, 0);
  }

  /** What happens between the lost fence and the reading: the row is freed and the stream catches up. */
  lemma StreamCatchesUp(maxEvents: int, s: State, t: TxId, id: Id, expected: int) returns (more: seq<Action>)
    requires Inv(maxEvents, s) && t in s.txs && s.txs[t].pc.ReadActual? && s.txs[t].id == id && id != [] && IsClear(id)
    requires 0 <= HeadOf(s.tables, id) < expected <= maxEvents && expected <= MAX_SAFE
    ensures var end := ApplyAll(maxEvents, s, more);
      HeadOf(end.tables, id) == expected && t in end.txs && end.txs[t] == s.txs[t]
  {
    var head := HeadOf(s.tables, id);
    assert s.txs[t].ownHead.None? by { assert TxFits(maxEvents, s, t, s.txs[t]); }
    LocksCanBeFreed(maxEvents, s, id);
    ApplyAllKeepsInv(maxEvents, s, Release(s, id));
    var freed := ApplyAll(maxEvents, s, Release(s, id));
    var w := SomeTxIsFresh(freed.txs.Keys);
    var catchUp := [Call(w, id, head, Fillers(id, head, expected - head))] + Times(w, 5);
    OtherCatchesUp(maxEvents, freed, w, id, expected - head);
    more := Release(s, id) + catchUp;
    ApplyAllSplits(maxEvents, s, Release(s, id), catchUp);
  }

  /** Every such guess can be told so, from every reachable state. */
  lemma GuessesCanBeNamed(
    maxEvents: int, actions: seq<Action>, t: TxId, id: Id, expected: int, batch: seq<Event>)
    returns (more: seq<Action>)
    requires t !in Run(maxEvents, actions).txs && batch != [] && Prevalidate(id, expected, batch, maxEvents).None?
    requires expected > HeadOf(Run(maxEvents, actions).tables, id) && IsClear(id)
    ensures NamesExpected(Run(maxEvents, actions + ([Call(t, id, expected, batch)] + more)), t)
  {
    var s := Run(maxEvents, actions);
    RunKeepsInv(maxEvents, actions);
    var lost := GuessIsLost(maxEvents, s, t, id, expected, batch);
    var between := StreamCatchesUp(maxEvents, lost, t, id, expected);
    ActualIsRead(maxEvents, ApplyAll(maxEvents, lost, between), t);
    more := [Advance(t), Advance(t)] + (between + Times(t, 2));
    GuessInParts(maxEvents, actions, t, id, expected, batch, between);
  }

  lemma GuessInParts(
    maxEvents: int, actions: seq<Action>, t: TxId, id: Id, expected: int, batch: seq<Event>, between: seq<Action>)
    ensures
      var lose := [Call(t, id, expected, batch), Advance(t), Advance(t)];
      var more := [Advance(t), Advance(t)] + (between + Times(t, 2));
      var lost := ApplyAll(maxEvents, Run(maxEvents, actions), lose);
      Run(maxEvents, actions + ([Call(t, id, expected, batch)] + more)) ==
        ApplyAll(maxEvents, ApplyAll(maxEvents, lost, between), Times(t, 2))
  {
    var s := Run(maxEvents, actions);
    var lose := [Call(t, id, expected, batch), Advance(t), Advance(t)];
    var more := [Advance(t), Advance(t)] + (between + Times(t, 2));
    ThreeParts(maxEvents, s, lose, between, Times(t, 2));
    assert [Call(t, id, expected, batch)] + more == lose + (between + Times(t, 2));
    RunGoesOn(maxEvents, actions, [Call(t, id, expected, batch)] + more);
  }

  lemma GuessIsLost(maxEvents: int, s: State, t: TxId, id: Id, expected: int, batch: seq<Event>) returns (lost: State)
    requires Inv(maxEvents, s) && t !in s.txs && batch != []
    requires Prevalidate(id, expected, batch, maxEvents).None? && expected > HeadOf(s.tables, id)
    ensures lost == ApplyAll(maxEvents, s, [Call(t, id, expected, batch), Advance(t), Advance(t)])
    ensures Inv(maxEvents, lost) && t in lost.txs && lost.txs[t].id == id && lost.txs[t].expected == expected
    ensures lost.txs[t].pc.ReadActual? && lost.txs[t].ownHead.None?
    ensures id != [] && 0 <= HeadOf(lost.tables, id) < expected <= maxEvents && expected <= MAX_SAFE
  {
    assert GoodRows(id, HeadOf(s.tables, id), RowsOf(s.tables, id));
    BatchPassesExactly(id, expected, batch);
    assert Storable(batch[0]) && batch[0].continuationId == id;
    GuessLosesItsFence(maxEvents, s, t, id, expected, batch);
    var lose := [Call(t, id, expected, batch), Advance(t), Advance(t)];
    lost := ApplyAll(maxEvents, s, lose);
    ApplyAllKeepsInv(maxEvents, s, lose);
  }

  lemma ThreeParts(maxEvents: int, s: State, a: seq<Action>, b: seq<Action>, c: seq<Action>)
    ensures ApplyAll(maxEvents, s, a + (b + c)) ==
      ApplyAll(maxEvents, ApplyAll(maxEvents, ApplyAll(maxEvents, s, a), b), c)
  {
    ApplyAllSplits(maxEvents, s, a, b + c);
    ApplyAllSplits(maxEvents, ApplyAll(maxEvents, s, a), b, c);
  }

  /**
   * From every reachable state, an append that is called now can be told of a conflict with the very
   * version it expected exactly if it has events, they pass validation, its expected version is ahead of the
   * committed head, and the id is one that a stream can have.
   */
  lemma ConflictNamesTheExpectedVersionExactly(
    maxEvents: int, actions: seq<Action>, t: TxId, id: Id, expected: int, batch: seq<Event>)
    requires t !in Run(maxEvents, actions).txs
    ensures
      (exists more :: NamesExpected(Run(maxEvents, actions + ([Call(t, id, expected, batch)] + more)), t)) <==>
      batch != [] && Prevalidate(id, expected, batch, maxEvents).None? && IsClear(id) &&
      expected > HeadOf(Run(maxEvents, actions).tables, id)
  {
    if exists more :: NamesExpected(Run(maxEvents, actions + ([Call(t, id, expected, batch)] + more)), t) {
      var more :| NamesExpected(Run(maxEvents, actions + ([Call(t, id, expected, batch)] + more)), t);
      OnlyGuessesAreNamed(maxEvents, actions, t, id, expected, batch, more);
    }
    if batch != [] && Prevalidate(id, expected, batch, maxEvents).None? && IsClear(id) &&
       expected > HeadOf(Run(maxEvents, actions).tables, id) {
      var more := GuessesCanBeNamed(maxEvents, actions, t, id, expected, batch);
    }
  }
}
