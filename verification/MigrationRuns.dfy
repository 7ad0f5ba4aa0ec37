/** What every interleaving of migration runs keeps, and what a finished run can be relied on for. */
module MigrationRuns {
  import opened Domain
  import opened Migration

  // ---------------------------------------------------------------- the invariant

  function Row(m: Definition): LedgerRow { LedgerRow(Some(m.version), m.name, m.checksum) }

  /** The run has created what comes before place k, except for what was there already. */
  ghost predicate Created(db: Catalog, added: set<Object>, k: int) {
    forall o: Object :: o in added <==> Place(o) < k && o !in db.objects
  }

  /** A run past the ledger check has built everything itself, or has found the row and built nothing. */
  ghost predicate BuiltOrFound(m: Definition, db: Catalog, r: Runner) {
    (Unmigrated(db) && Created(db, r.added, DDL_COUNT) && r.inserted == [Row(m)]) ||
    (RequireRows(db.ledger, m).None? && r.added == {} && r.inserted == [])
  }

  /** A refusal says what is wrong with the committed catalog. */
  ghost predicate ProblemFits(m: Definition, db: Catalog, problem: Problem) {
    match problem
    case DatabaseFailed => true
    case Incomplete => RequireRows(db.ledger, m).None? && !(CHECKED <= db.objects)
    case Required => false
    case Corrupt => false
    case VersionAhead => RequireRows(db.ledger, m) == Some(VersionAhead)
    case ChecksumMismatch => RequireRows(db.ledger, m) == Some(ChecksumMismatch)
  }

  predicate Outside(pc: Pc) { pc.BeginTx? || pc.TakeLock? || pc.Finished? }

  ghost predicate RunnerFits(m: Definition, s: State, t: RunId, r: Runner) {
    (Outside(r.pc) ==> s.lock != Some(t) && r.added == {} && r.inserted == []) &&
    (!Outside(r.pc) && !r.pc.Rollback? ==> s.lock == Some(t)) &&
    match r.pc
    case BeginTx => true
    case TakeLock => true
    case CreateSchema => r.added == {} && r.inserted == []
    case CreateLedger => Created(s.db, r.added, -1) && r.inserted == []
    case ReadBefore => Created(s.db, r.added, 0) && r.inserted == []
    case Build(k) =>
      k <= DDL_COUNT && s.db.ledger == [] && (forall o | o in s.db.objects :: !(0 <= Place(o) < k)) &&
      Created(s.db, r.added, k) && r.inserted == []
    case InsertRow => Unmigrated(s.db) && Created(s.db, r.added, DDL_COUNT) && r.inserted == []
    case ReadAfter => BuiltOrFound(m, s.db, r)
    case CheckObjects => BuiltOrFound(m, s.db, r)
    case Commit => BuiltOrFound(m, s.db, r) && Ready(View(s.db, r), m)
    case Rollback(problem) => ProblemFits(m, s.db, problem)
    case Finished(outcome) =>
      match outcome
      case None => Ready(s.db, m)
      case Some(problem) => ProblemFits(m, s.db, problem)
  }

  ghost predicate Inv(m: Definition, db: Catalog, s: State) {
    WellFormed(s.db) && (s.db == db || (Unmigrated(db) && s.db == Built(db, m))) &&
    (s.lock.Some? ==> s.lock.value in s.runs) &&
    forall t | t in s.runs :: RunnerFits(m, s, t, s.runs[t])
  }

  // ---------------------------------------------------------------- single statements

  lemma AfterReadingFits(m: Definition, db: Catalog)
    requires WellFormed(db) && m.version == 1
    ensures match AfterReadingBefore(db.ledger, m)
      case Build(k) => k == 0 && db.ledger == []
      case ReadAfter => RequireRows(db.ledger, m).None? && SchemaItself in db.objects && LedgerTable in db.objects
      case Rollback(problem) => ProblemFits(m, db, problem)
      case _ => false
  {
    assert db.ledger != [] ==> db.ledger[0].version.Some? && db.ledger[0].version.value > 0;
    var k := FindsTheFirst(db.ledger, m.version);
    assert db.ledger != [] && k == |db.ledger| ==> AtMost(db.ledger[0], 1);
    assert db.ledger != [] && k == |db.ledger| ==> FindEqual(db.ledger, 1) == At(db.ledger[0]);
  }

  /** The statement for place k finds what it needs, and creates what comes before the next place. */
  lemma CreateFits(db: Catalog, added: set<Object>, o: Object)
    requires Created(db, added, Place(o)) && WellFormed(db)
    ensures Needs(o) <= db.objects + added
    ensures o !in added
    ensures o !in db.objects ==> Created(db, added + {o}, Place(o) + 1)
    ensures o in db.objects ==> Created(db, added, Place(o) + 1)
  {
    NeedsComeFirst(o);
    forall p: Object ensures Place(p) < Place(o) + 1 <==> Place(p) < Place(o) || p == o {
      if Place(p) == Place(o) { PlacesDiffer(p, o); }
    }
  }

  lemma BuiltRunIsReady(m: Definition, db: Catalog, r: Runner)
    requires BuiltOrFound(m, db, r)
    ensures RequireRows(View(db, r).ledger, m).None?
    ensures View(db, r) == db || (Unmigrated(db) && View(db, r) == Built(db, m))
    ensures !(CHECKED <= View(db, r).objects) ==> ProblemFits(m, db, Incomplete)
  {
    if Unmigrated(db) && r.inserted == [Row(m)] {
      forall o: Object ensures o in View(db, r).objects && o in Built(db, m).objects {
        AllIsAll(o);
      }
      BuiltIsReady(db, m);
    } else {
      assert View(db, r).objects == db.objects && View(db, r).ledger == db.ledger;
    }
  }

  // ---------------------------------------------------------------- one step

  lemma CreatingStepFits(m: Definition, s: State, t: RunId)
    requires m.version == 1 && WellFormed(s.db) && t in s.runs && RunnerFits(m, s, t, s.runs[t])
    requires s.runs[t].pc.CreateSchema? || s.runs[t].pc.CreateLedger?
    ensures var n := Statement(m, s, t);
      n.db == s.db && t in n.runs && RunnerFits(m, n, t, n.runs[t])
  {
    CreateFits(s.db, s.runs[t].added, if s.runs[t].pc.CreateSchema? then SchemaItself else LedgerTable);
  }

  lemma CheckingStepFits(m: Definition, s: State, t: RunId)
    requires m.version == 1 && WellFormed(s.db) && t in s.runs && RunnerFits(m, s, t, s.runs[t])
    requires s.runs[t].pc.ReadAfter? || s.runs[t].pc.CheckObjects?
    ensures var n := Statement(m, s, t);
      n.db == s.db && t in n.runs && RunnerFits(m, n, t, n.runs[t])
  {
    BuiltRunIsReady(m, s.db, s.runs[t]);
  }

  lemma PlainStepFits(m: Definition, s: State, t: RunId)
    requires m.version == 1 && WellFormed(s.db) && t in s.runs && RunnerFits(m, s, t, s.runs[t])
    requires var pc := s.runs[t].pc;
      !pc.CreateSchema? && !pc.CreateLedger? && !pc.ReadAfter? && !pc.CheckObjects? && !pc.ReadBefore? &&
      !(pc.Build? && pc.k < DDL_COUNT) && !pc.Commit?
    ensures var n := Statement(m, s, t);
      n.db == s.db && t in n.runs && RunnerFits(m, n, t, n.runs[t])
  {
    if s.runs[t].pc.InsertRow? { assert View(s.db, s.runs[t]).ledger == []; }
  }

  /** A run's own next state, when its statement leaves the committed catalog alone. */
  lemma OwnStepFits(m: Definition, s: State, t: RunId)
    requires m.version == 1 && WellFormed(s.db) && t in s.runs && RunnerFits(m, s, t, s.runs[t])
    requires !s.runs[t].pc.Commit?
    ensures var n := Statement(m, s, t);
      n.db == s.db && t in n.runs && RunnerFits(m, n, t, n.runs[t])
  {
    var pc := s.runs[t].pc;
    if pc.CreateSchema? || pc.CreateLedger? {
      CreatingStepFits(m, s, t);
    } else if pc.ReadBefore? {
      ReadStepFits(m, s, t);
    } else if pc.Build? && pc.k < DDL_COUNT {
      BuildStepFits(m, s, t, pc.k);
    } else if pc.ReadAfter? || pc.CheckObjects? {
      CheckingStepFits(m, s, t);
    } else {
      PlainStepFits(m, s, t);
    }
  }

  lemma ReadStepFits(m: Definition, s: State, t: RunId)
    requires m.version == 1 && WellFormed(s.db) && t in s.runs && RunnerFits(m, s, t, s.runs[t])
    requires s.runs[t].pc.ReadBefore?
    ensures var n := Statement(m, s, t);
      n.db == s.db && t in n.runs && RunnerFits(m, n, t, n.runs[t])
  {
    assert View(s.db, s.runs[t]).ledger == s.db.ledger;
    AfterReadingFits(m, s.db);
    FoundMeansNothingMissing(s.db, s.runs[t].added);
  }

  lemma FoundMeansNothingMissing(db: Catalog, added: set<Object>)
    requires Created(db, added, 0) || Created(db, added, -1)
    ensures SchemaItself in db.objects && LedgerTable in db.objects ==> added == {}
  {
    forall o: Object | Place(o) < 0 ensures o == SchemaItself || o == LedgerTable {
    }
  }

  lemma BuildStepFits(m: Definition, s: State, t: RunId, k: nat)
    requires WellFormed(s.db) && t in s.runs && RunnerFits(m, s, t, s.runs[t])
    requires s.runs[t].pc == Build(k) && k < DDL_COUNT
    ensures var n := Statement(m, s, t);
      n.db == s.db && t in n.runs && RunnerFits(m, n, t, n.runs[t])
  {
    CreateFits(s.db, s.runs[t].added, Ddl(k));
    forall o | o in s.db.objects && Place(o) == k && Ddl(k) !in s.db.objects ensures false {
      PlacesDiffer(o, Ddl(k));
    }
  }

  /** What a statement does to anything but its own run: at most take or release the lock. */
  lemma OthersUntouched(m: Definition, s: State, t: RunId)
    requires t in s.runs && !s.runs[t].pc.Commit?
    ensures var n := Statement(m, s, t);
      n.db == s.db && n.runs.Keys == s.runs.Keys && (forall o | o in s.runs && o != t :: n.runs[o] == s.runs[o]) &&
      (n.lock == s.lock || (n.lock == Some(t) && s.lock.None?) || (s.lock == Some(t) && n.lock.None?))
  {
  }

  /** A run that the lock is not with fits as well when the lock goes to, or comes from, another. */
  lemma BystanderFits(m: Definition, s: State, n: State, t: RunId, o: RunId)
    requires o != t && o in s.runs && RunnerFits(m, s, o, s.runs[o]) && n.db == s.db
    requires n.lock == s.lock || (n.lock == Some(t) && s.lock.None?) || (s.lock == Some(t) && n.lock.None?)
    ensures RunnerFits(m, n, o, s.runs[o])
  {
  }

  lemma QuietStepKeepsInv(m: Definition, db: Catalog, s: State, t: RunId)
    requires m.version == 1 && Inv(m, db, s) && t in s.runs && !s.runs[t].pc.Commit?
    ensures Inv(m, db, Statement(m, s, t))
  {
    var n := Statement(m, s, t);
    OwnStepFits(m, s, t);
    OthersUntouched(m, s, t);
    forall o | o in n.runs ensures RunnerFits(m, n, o, n.runs[o]) {
      if o != t { BystanderFits(m, s, n, t, o); }
    }
  }

  /** A refusal or a success that was true of the catalog before a commit is true of the one after it. */
  lemma CommitKeepsOutcomes(m: Definition, before: Catalog, after: Catalog, o: Runner)
    requires after == before || (Unmigrated(before) && after == Built(before, m))
    requires Ready(after, m)
    ensures o.pc.Finished? && o.pc.outcome.Some? && ProblemFits(m, before, o.pc.outcome.value) ==>
      ProblemFits(m, after, o.pc.outcome.value)
    ensures o.pc.Rollback? && ProblemFits(m, before, o.pc.problem) ==> ProblemFits(m, after, o.pc.problem)
  {
    if Unmigrated(before) { assert RequireRows(before.ledger, m) == Some(Required); }
  }

  lemma CommitKeepsInv(m: Definition, db: Catalog, s: State, t: RunId, outcome: Option<Problem>)
    requires m.version == 1 && Inv(m, db, s) && t in s.runs && s.runs[t].pc.Commit?
    requires outcome == None || outcome == Some(DatabaseFailed)
    ensures Inv(m, db, Put(CommitRun(s, t), t, Runner({}, [], Finished(outcome))))
  {
    var r := s.runs[t];
    var n := Put(CommitRun(s, t), t, Runner({}, [], Finished(outcome)));
    assert RunnerFits(m, s, t, r);
    BuiltRunIsReady(m, s.db, r);
    forall o | o in n.runs ensures RunnerFits(m, n, o, n.runs[o]) {
      if o != t {
        assert RunnerFits(m, s, o, s.runs[o]);
        CommitKeepsOutcomes(m, s.db, n.db, s.runs[o]);
      }
    }
    BuiltIsWellFormed(m, s.db);
    if Unmigrated(db) && s.db == Built(db, m) {
      BuiltIsReady(db, m);
      assert s.db.ledger != [];
    }
  }

  lemma BuiltIsWellFormed(m: Definition, db: Catalog)
    requires m.version == 1 && WellFormed(db)
    ensures WellFormed(Built(db, m))
  {
    AllIsAll(SchemaItself);
    AllIsAll(LedgerTable);
  }

  lemma RollbackKeepsInv(m: Definition, db: Catalog, s: State, t: RunId)
    requires Inv(m, db, s) && t in s.runs && !s.runs[t].pc.Finished?
    ensures Inv(m, db, Put(s, t, s.runs[t].(pc := Rollback(DatabaseFailed))))
  {
    var n := Put(s, t, s.runs[t].(pc := Rollback(DatabaseFailed)));
    forall o | o in n.runs ensures RunnerFits(m, n, o, n.runs[o]) {
      if o != t { BystanderFits(m, s, n, t, o); }
    }
  }

  lemma StartKeepsInv(m: Definition, db: Catalog, s: State, t: RunId)
    requires Inv(m, db, s) && t !in s.runs
    ensures Inv(m, db, Put(s, t, Runner({}, [], BeginTx)))
  {
    var n := Put(s, t, Runner({}, [], BeginTx));
    forall o | o in n.runs ensures RunnerFits(m, n, o, n.runs[o]) {
      if o != t { BystanderFits(m, s, n, t, o); }
    }
  }

  lemma ApplyKeepsInv(m: Definition, db: Catalog, s: State, a: Action)
    requires m.version == 1 && Inv(m, db, s)
    ensures Inv(m, db, Apply(m, s, a))
  {
    match a
    case Start(t) => if t !in s.runs { StartKeepsInv(m, db, s, t); }
    case Advance(t) =>
      if t in s.runs {
        if s.runs[t].pc.Commit? {
          CommitKeepsInv(m, db, s, t, None);
          assert CommitRun(s, t) == Put(CommitRun(s, t), t, Runner({}, [], Finished(None)));
        } else {
          QuietStepKeepsInv(m, db, s, t);
        }
      }
    case Fail(t) =>
      if t in s.runs && !s.runs[t].pc.Finished? { RollbackKeepsInv(m, db, s, t); }
    case LoseCommitAnswer(t, committed) =>
      if t in s.runs && s.runs[t].pc.Commit? {
        if committed { CommitKeepsInv(m, db, s, t, Some(DatabaseFailed)); } else { RollbackKeepsInv(m, db, s, t); }
      }
  }

  lemma {:induction false} RunKeepsInv(m: Definition, db: Catalog, actions: seq<Action>)
    requires m.version == 1 && WellFormed(db)
    ensures Inv(m, db, Run(m, db, actions))
  {
    if actions != [] {
      RunKeepsInv(m, db, actions[..|actions| - 1]);
      ApplyKeepsInv(m, db, Run(m, db, actions[..|actions| - 1]), actions[|actions| - 1]);
    }
  }

  // ---------------------------------------------------------------- guarantees

  /**
   * Whatever the interleaving and the failures, the committed catalog is the one the runs started from or
   * that one with everything built and a single ledger row; only an unmigrated catalog is ever built on.
   */
  lemma SchemaIsAllOrNothing(m: Definition, db: Catalog, actions: seq<Action>)
    requires m.version == 1 && WellFormed(db)
    ensures var now := Run(m, db, actions).db;
      now == db ||
      (Unmigrated(db) && now == Built(db, m) && Ready(now, m) &&
       now.ledger == [LedgerRow(Some(m.version), m.name, m.checksum)])
  {
    RunKeepsInv(m, db, actions);
    if Unmigrated(db) { BuiltIsReady(db, m); }
  }

  /** After any successful run, and however many more runs come and fail, readiness succeeds. */
  lemma SuccessMeansReady(m: Definition, db: Catalog, actions: seq<Action>, t: RunId)
    requires m.version == 1 && WellFormed(db)
    requires t in Run(m, db, actions).runs && Run(m, db, actions).runs[t].pc == Finished(None)
    ensures Ready(Run(m, db, actions).db, m)
  {
    RunKeepsInv(m, db, actions);
  }

  /** While the ledger holds the row, no run executes or has pending any statement of the migration. */
  lemma FoundRowReplaysNothing(m: Definition, db: Catalog, actions: seq<Action>, t: RunId)
    requires m.version == 1 && WellFormed(db) && t in Run(m, db, actions).runs
    requires RequireRows(Run(m, db, actions).db.ledger, m).None?
    ensures var r := Run(m, db, actions).runs[t];
      !r.pc.Build? && !r.pc.InsertRow? && (!r.pc.Rollback? ==> r.added == {} && r.inserted == [])
  {
    RunKeepsInv(m, db, actions);
    var s := Run(m, db, actions);
    FoundRunIsIdle(m, s, t, s.runs[t]);
  }

  lemma FoundRunIsIdle(m: Definition, s: State, t: RunId, r: Runner)
    requires WellFormed(s.db) && RunnerFits(m, s, t, r) && RequireRows(s.db.ledger, m).None?
    ensures !r.pc.Build? && !r.pc.InsertRow? && (!r.pc.Rollback? ==> r.added == {} && r.inserted == [])
  {
    assert RequireRows([], m) == Some(Required);
    if r.pc.CreateLedger? || r.pc.ReadBefore? {
      FoundMeansNothingMissing(s.db, r.added);
    }
  }

  /** At most one run is past the advisory lock with work to commit. */
  lemma OneBuilderAtATime(m: Definition, db: Catalog, actions: seq<Action>, t: RunId, o: RunId)
    requires m.version == 1 && WellFormed(db) && t in Run(m, db, actions).runs && o in Run(m, db, actions).runs
    requires !Outside(Run(m, db, actions).runs[t].pc) && !Run(m, db, actions).runs[t].pc.Rollback?
    requires !Outside(Run(m, db, actions).runs[o].pc) && !Run(m, db, actions).runs[o].pc.Rollback?
    ensures t == o
  {
    RunKeepsInv(m, db, actions);
    assert RunnerFits(m, Run(m, db, actions), t, Run(m, db, actions).runs[t]);
    assert RunnerFits(m, Run(m, db, actions), o, Run(m, db, actions).runs[o]);
  }

  /**
   * A refused run is refused for the reason it gives: a newer ledger, another checksum, or missing
   * objects under a matching ledger. It is never told that the ledger is corrupt or the migration missing.
   */
  lemma RefusalsAreTrue(m: Definition, db: Catalog, actions: seq<Action>, t: RunId, problem: Problem)
    requires m.version == 1 && WellFormed(db)
    requires t in Run(m, db, actions).runs && Run(m, db, actions).runs[t].pc == Finished(Some(problem))
    requires problem != DatabaseFailed
    ensures Run(m, db, actions).db == db
    ensures (problem == Incomplete && RequireRows(db.ledger, m).None? && !(CHECKED <= db.objects)) ||
            ((problem == VersionAhead || problem == ChecksumMismatch) && RequireRows(db.ledger, m) == Some(problem))
  {
    RunKeepsInv(m, db, actions);
    assert RunnerFits(m, Run(m, db, actions), t, Run(m, db, actions).runs[t]);
    if Unmigrated(db) { BuiltIsReady(db, m); }
  }

  // ---------------------------------------------------------------- progress

  function StepsLeft(pc: Pc): int {
    match pc
    case BeginTx => 20
    case TakeLock => 19
    case CreateSchema => 18
    case CreateLedger => 17
    case ReadBefore => 16
    case Build(k) => 15 - k
    case InsertRow => 5
    case ReadAfter => 4
    case CheckObjects => 3
    case Commit => 2
    case Rollback(_) => 1
    case Finished(_) => 0
  }

  predicate Nearer(pc: Pc, next: Pc) {
    0 <= StepsLeft(next) < StepsLeft(pc) && (!pc.Rollback? ==> !next.Rollback?)
  }

  lemma CreatingProgresses(m: Definition, s: State, t: RunId)
    requires m.version == 1 && WellFormed(s.db) && t in s.runs && RunnerFits(m, s, t, s.runs[t])
    requires Unmigrated(s.db) || Ready(s.db, m)
    requires var pc := s.runs[t].pc; pc.CreateSchema? || pc.CreateLedger? || (pc.Build? && pc.k < DDL_COUNT)
    ensures Nearer(s.runs[t].pc, Statement(m, s, t).runs[t].pc)
  {
    var r := s.runs[t];
    CreateFits(s.db, r.added,
               if r.pc.CreateSchema? then SchemaItself else if r.pc.CreateLedger? then LedgerTable else Ddl(r.pc.k));
  }

  lemma ReadingProgresses(m: Definition, s: State, t: RunId)
    requires m.version == 1 && WellFormed(s.db) && t in s.runs && RunnerFits(m, s, t, s.runs[t])
    requires Unmigrated(s.db) || Ready(s.db, m)
    requires s.runs[t].pc.ReadBefore?
    ensures Nearer(s.runs[t].pc, Statement(m, s, t).runs[t].pc)
  {
    assert View(s.db, s.runs[t]).ledger == s.db.ledger;
    if Unmigrated(s.db) {
      assert FindAbove(s.db.ledger, m.version) == NoneSuch && FindEqual(s.db.ledger, m.version) == NoneSuch;
    }
  }

  lemma CheckingProgresses(m: Definition, s: State, t: RunId)
    requires m.version == 1 && WellFormed(s.db) && t in s.runs && RunnerFits(m, s, t, s.runs[t])
    requires Unmigrated(s.db) || Ready(s.db, m)
    requires s.runs[t].pc.ReadAfter? || s.runs[t].pc.CheckObjects?
    ensures Nearer(s.runs[t].pc, Statement(m, s, t).runs[t].pc)
  {
    BuiltRunIsReady(m, s.db, s.runs[t]);
    if Unmigrated(s.db) { BuiltIsReady(s.db, m); }
  }

  lemma StepProgresses(m: Definition, s: State, t: RunId)
    requires m.version == 1 && WellFormed(s.db) && t in s.runs && RunnerFits(m, s, t, s.runs[t])
    requires Unmigrated(s.db) || Ready(s.db, m)
    requires !s.runs[t].pc.Finished? && (s.lock.None? || s.lock == Some(t))
    ensures Nearer(s.runs[t].pc, Statement(m, s, t).runs[t].pc)
  {
    var pc := s.runs[t].pc;
    if pc.CreateSchema? || pc.CreateLedger? || (pc.Build? && pc.k < DDL_COUNT) {
      CreatingProgresses(m, s, t);
    } else if pc.ReadBefore? {
      ReadingProgresses(m, s, t);
    } else if pc.ReadAfter? || pc.CheckObjects? {
      CheckingProgresses(m, s, t);
    } else if pc.InsertRow? {
      assert View(s.db, s.runs[t]).ledger == [];
    }
  }

  /**
   * Started on an unmigrated or a ready catalog, a run that is not waiting for the lock gets nearer to its
   * end with each of its statements, and none of them sends it into rollback: only outside failures do.
   */
  lemma OnlyFailuresStopARun(m: Definition, db: Catalog, actions: seq<Action>, t: RunId)
    requires m.version == 1 && WellFormed(db) && (Unmigrated(db) || Ready(db, m))
    requires t in Run(m, db, actions).runs && !Run(m, db, actions).runs[t].pc.Finished?
    requires Run(m, db, actions).lock.None? || Run(m, db, actions).lock == Some(t)
    ensures var s := Run(m, db, actions);
      var next := Apply(m, s, Advance(t)).runs[t].pc;
      0 <= StepsLeft(next) < StepsLeft(s.runs[t].pc) <= 20 && (!s.runs[t].pc.Rollback? ==> !next.Rollback?)
  {
    RunKeepsInv(m, db, actions);
    SchemaIsAllOrNothing(m, db, actions);
    assert RunnerFits(m, Run(m, db, actions), t, Run(m, db, actions).runs[t]);
    StepProgresses(m, Run(m, db, actions), t);
  }
}
