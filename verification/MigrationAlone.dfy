/** What one migration run comes to when nothing outside makes it fail: its answer and its catalog. */
module MigrationAlone {
  import opened Domain
  import opened Migration
  import opened MigrationRuns

  /** No row says that the migration was applied, but something that it creates is there. */
  ghost predicate Obstructed(c: Catalog) {
    c.ledger == [] && exists o :: o in c.objects && Place(o) >= 0
  }

  /** What a run answers, by the catalog it finds. */
  ghost function AnswerOn(m: Definition, c: Catalog): Option<Problem> {
    if c.ledger == [] then if Obstructed(c) then Some(DatabaseFailed) else None
    else if RequireRows(c.ledger, m).Some? then RequireRows(c.ledger, m)
    else if exists o :: o in CHECKED && o !in c.objects then Some(Incomplete)
    else None
  }

  /** The database failed the run only if something was in the way of what it creates. */
  ghost predicate Honest(c: Catalog, pc: Pc) {
    pc == Rollback(DatabaseFailed) || pc == Finished(Some(DatabaseFailed)) ==> Obstructed(c)
  }

  // ---------------------------------------------------------------- one statement

  lemma CreatingIsNearer(m: Definition, s: State, t: RunId)
    requires m.version == 1 && WellFormed(s.db) && t in s.runs && RunnerFits(m, s, t, s.runs[t])
    requires var pc := s.runs[t].pc; pc.CreateSchema? || pc.CreateLedger? || (pc.Build? && pc.k < DDL_COUNT)
    ensures var next := Statement(m, s, t).runs[t].pc;
      0 <= StepsLeft(next) < StepsLeft(s.runs[t].pc) && Honest(s.db, next)
  {
    var r := s.runs[t];
    var o := if r.pc.CreateSchema? then SchemaItself else if r.pc.CreateLedger? then LedgerTable else Ddl(r.pc.k);
    CreateFits(s.db, r.added, o);
    if r.pc.Build? && o in s.db.objects {
      assert Obstructed(s.db);
    }
  }

  lemma OtherIsNearer(m: Definition, s: State, t: RunId)
    requires m.version == 1 && WellFormed(s.db) && t in s.runs && RunnerFits(m, s, t, s.runs[t])
    requires var pc := s.runs[t].pc;
      !pc.CreateSchema? && !pc.CreateLedger? && !(pc.Build? && pc.k < DDL_COUNT) && !pc.Finished? && !pc.Rollback?
    requires s.lock.None? || s.lock == Some(t)
    ensures var next := Statement(m, s, t).runs[t].pc;
      0 <= StepsLeft(next) < StepsLeft(s.runs[t].pc) && Honest(s.db, next)
  {
    var r := s.runs[t];
    if r.pc.InsertRow? {
      assert View(s.db, r).ledger == [];
    } else if r.pc.ReadBefore? {
      assert View(s.db, r).ledger == s.db.ledger;
      AfterReadingFits(m, s.db);
      NoDatabaseFailure(s.db.ledger, m);
    } else if r.pc.ReadAfter? {
      NoDatabaseFailure(View(s.db, r).ledger, m);
    }
  }

  lemma NoDatabaseFailure(rows: seq<LedgerRow>, m: Definition)
    ensures RequireRows(rows, m) != Some(DatabaseFailed)
    ensures AfterReadingBefore(rows, m) != Rollback(DatabaseFailed)
  {
  }

  /** Each statement brings a run that can have the lock nearer to its end. */
  lemma StatementIsNearer(m: Definition, db: Catalog, s: State, t: RunId)
    requires m.version == 1 && Inv(m, db, s) && t in s.runs && !s.runs[t].pc.Finished?
    requires (s.lock.None? || s.lock == Some(t)) && Honest(s.db, s.runs[t].pc)
    ensures var n := Statement(m, s, t);
      t in n.runs && 0 <= StepsLeft(n.runs[t].pc) < StepsLeft(s.runs[t].pc) && Honest(s.db, n.runs[t].pc) &&
      (n.lock.None? || n.lock == Some(t)) && (n.db == s.db || n.runs[t].pc == Finished(None))
  {
    assert RunnerFits(m, s, t, s.runs[t]);
    var pc := s.runs[t].pc;
    if pc.CreateSchema? || pc.CreateLedger? || (pc.Build? && pc.k < DDL_COUNT) {
      CreatingIsNearer(m, s, t);
    } else if !pc.Rollback? {
      OtherIsNearer(m, s, t);
    }
  }

  // ---------------------------------------------------------------- the whole run

  function Statements(t: RunId, n: nat): seq<Action> {
    if n == 0 then [] else [Advance(t)] + Statements(t, n - 1)
  }

  function ApplyAll(m: Definition, s: State, more: seq<Action>): State
    decreases |more|
  {
    if more == [] then s else ApplyAll(m, Apply(m, s, more[0]), more[1..])
  }

  lemma {:induction false} RunGoesOn(m: Definition, db: Catalog, first: seq<Action>, more: seq<Action>)
    ensures Run(m, db, first + more) == ApplyAll(m, Run(m, db, first), more)
    decreases |more|
  {
    if more == [] {
      assert first + more == first;
    } else {
      assert first + more == first + [more[0]] + more[1..];
      assert (first + [more[0]])[..|first|] == first;
      RunGoesOn(m, db, first + [more[0]], more[1..]);
    }
  }

  /** A run at its end: with the answer for the catalog it found, which it has built on or left as it was. */
  ghost predicate EndsOn(m: Definition, c: Catalog, n: State, t: RunId) {
    t in n.runs && n.runs[t].pc == Finished(AnswerOn(m, c)) && n.db == if Unmigrated(c) then Built(c, m) else c
  }

  lemma FinishedAnswers(m: Definition, c: Catalog, s: State, t: RunId)
    requires m.version == 1 && Inv(m, c, s) && t in s.runs && s.runs[t].pc.Finished? && Honest(c, s.runs[t].pc)
    requires s.db == c || s.runs[t].pc == Finished(None)
    ensures EndsOn(m, c, s, t)
  {
    assert RunnerFits(m, s, t, s.runs[t]);
    assert RequireRows([], m) == Some(Required);
    if c.ledger == [] {
      assert Unmigrated(c) <==> !Obstructed(c);
    }
    assert CHECKED <= c.objects <==> !exists o :: o in CHECKED && o !in c.objects;
  }

  lemma {:induction false} StatementsEnd(m: Definition, c: Catalog, s: State, t: RunId, k: nat)
    requires m.version == 1 && Inv(m, c, s) && t in s.runs && StepsLeft(s.runs[t].pc) <= k
    requires (s.lock.None? || s.lock == Some(t)) && Honest(c, s.runs[t].pc)
    requires s.db == c || s.runs[t].pc == Finished(None)
    ensures EndsOn(m, c, ApplyAll(m, s, Statements(t, k)), t)
    decreases k
  {
    if s.runs[t].pc.Finished? {
      if k == 0 {
        FinishedAnswers(m, c, s, t);
      } else {
        assert Apply(m, s, Advance(t)) == s;
        StatementsEnd(m, c, s, t, k - 1);
        FirstStatement(m, s, t, k);
      }
    } else {
      StatementIsNearer(m, c, s, t);
      ApplyKeepsInv(m, c, s, Advance(t));
      StatementsEnd(m, c, Apply(m, s, Advance(t)), t, k - 1);
      FirstStatement(m, s, t, k);
    }
  }

  lemma FirstStatement(m: Definition, s: State, t: RunId, k: nat)
    requires k > 0
    ensures ApplyAll(m, s, Statements(t, k)) == ApplyAll(m, Apply(m, s, Advance(t)), Statements(t, k - 1))
  {
    assert Statements(t, k)[1..] == Statements(t, k - 1);
  }

  /**
   * From every reachable state in which no run holds the advisory lock, a run that starts and is not made to
   * fail from outside ends within twenty statements. It migrates an unmigrated catalog; on one whose ledger
   * holds the row it succeeds exactly if every checked object is there, and changes nothing; on any other it
   * is refused for what is wrong with it, and changes nothing.
   */
  lemma MigratesAlone(m: Definition, db: Catalog, actions: seq<Action>, t: RunId)
    requires m.version == 1 && WellFormed(db)
    requires t !in Run(m, db, actions).runs && Run(m, db, actions).lock.None?
    ensures EndsOn(m, Run(m, db, actions).db, Run(m, db, actions + ([Start(t)] + Statements(t, 20))), t)
  {
    var s := Run(m, db, actions);
    RunKeepsInv(m, db, actions);
    RunGoesOn(m, db, actions, [Start(t)] + Statements(t, 20));
    assert ([Start(t)] + Statements(t, 20))[1..] == Statements(t, 20);
    ApplyKeepsInv(m, db, s, Start(t));
    StatementsEnd(m, s.db, Apply(m, s, Start(t)), t, 20);
  }
}
