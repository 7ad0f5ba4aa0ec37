/**
 * The three stores side by side: the same commands, given to an in-memory store, to a SQLite store and to
 * the PostgreSQL transactions, lead to the same log and to the same answers, as long as every event that the
 * contract takes passes the CHECKs of both event columns, and no longer.
 */
module StoresAgree {
  import opened Text16
  import opened JsonText
  import opened Domain
  import opened EventLog
  import opened Stores
  import opened PostgresCheck
  import P = PostgresAppend
  import R = PostgresRuns
  import A = PostgresAlone
  import L = PostgresLoad

  /**
   * What a caller does with a store. A failing append is one that the database fails: for SQLite the fault
   * says where, for PostgreSQL how many statements go through before.
   */
  datatype Command =
    | LoadStream(id: Id)
    | AppendBatch(id: Id, expected: int, events: seq<Event>)
    | FailingAppend(id: Id, expected: int, events: seq<Event>, fault: Fault, statements: nat)

  datatype Answer = Loaded(events: seq<Event>) | Accepted | Rejected(error: Error)

  /** The failing append does fail: the fault strikes, and so before the fifth statement, which is COMMIT. */
  predicate ReallyFails(c: Command) {
    c.FailingAppend? ==>
      (c.fault.AtBegin? || c.fault.AtSelect? || Strikes(c.fault, |c.events|)) && c.statements < 5 &&
      (c.events == [] ==> c.statements == 0)
  }

  /** The same answer, except that two refusals may name different errors. */
  predicate SameAnswer(a: Answer, b: Answer) { a == b || (a.Rejected? && b.Rejected?) }

  function AnswerOf(error: Option<Error>): Answer { if error.None? then Accepted else Rejected(error.value) }

  // ---------------------------------------------------------------- the reference

  /** What the contract makes of a command. */
  function ContractStep(log: Log, c: Command): (Log, Answer) {
    match c
    case LoadStream(id) => (log, Loaded(Stream(log, id)))
    case AppendBatch(id, expected, events) => (
      match CompareAndAppend(log, id, expected, events)
      case Stored(after) => (after, Accepted)
      case Refused(e) => (log, Rejected(e)))
    case FailingAppend(_, _, _, _, _) => (log, Rejected(StoreFailed))
  }

  function ContractRun(commands: seq<Command>): (Log, seq<Answer>) {
    if commands == [] then (map[], [])
    else
      var before := ContractRun(commands[..|commands| - 1]);
      var step := ContractStep(before.0, commands[|commands| - 1]);
      (step.0, before.1 + [step.1])
  }

  // ---------------------------------------------------------------- what the columns check

  /** The contract takes the batch of this command. */
  predicate Takes(log: Log, c: Command) {
    c.AppendBatch? && CompareAndAppend(log, c.id, c.expected, c.events).Stored?
  }

  /** Every batch that the contract takes passes. */
  ghost predicate TakenPass(commands: seq<Command>, pass: seq<Event> -> bool) {
    commands == [] ||
    (TakenPass(commands[..|commands| - 1], pass) && PassesIfTaken(commands, |commands| - 1, pass))
  }

  ghost predicate PassesIfTaken(commands: seq<Command>, n: nat, pass: seq<Event> -> bool)
    requires n < |commands|
  {
    Takes(ContractRun(commands[..n]).0, commands[n]) ==> pass(commands[n].events)
  }

  function SqliteCheck(z: Serializer, jsonValid: Text -> bool): seq<Event> -> bool {
    events => AllValid(z, jsonValid, events)
  }

  lemma OneMorePasses(commands: seq<Command>, i: nat, pass: seq<Event> -> bool)
    requires i < |commands|
    ensures TakenPass(commands[..i + 1], pass) <==> TakenPass(commands[..i], pass) && PassesIfTaken(commands, i, pass)
  {
    assert commands[..i + 1][..i] == commands[..i];
  }

  // ---------------------------------------------------------------- the two stores in this process

  method RunInMemory(store: InMemoryEventStore, c: Command) returns (answer: Answer)
    requires store.Valid()
    modifies store
    ensures store.Valid() && store.log == ContractStep(old(store.log), c).0
    ensures answer == ContractStep(old(store.log), c).1
  {
    match c
    case LoadStream(id) =>
      var r := store.Load(id);
      answer := Loaded(r.value);
    case AppendBatch(id, expected, events) =>
      var error := store.Append(id, expected, events);
      answer := AnswerOf(error);
    case FailingAppend(_, _, _, _, _) =>
      answer := Rejected(StoreFailed);
  }

  method RunSqlite(store: SqliteEventStore, c: Command) returns (answer: Answer)
    requires store.Valid() && ReallyFails(c)
    modifies store
    ensures store.Valid()
    ensures
      if Takes(old(store.log), c) && !AllValid(store.serializer, store.jsonValid, c.events) then
        store.log == old(store.log) && answer == Rejected(StoreFailed)
      else
        store.log == ContractStep(old(store.log), c).0 && SameAnswer(answer, ContractStep(old(store.log), c).1) &&
        (!c.FailingAppend? ==> answer == ContractStep(old(store.log), c).1)
  {
    match c
    case LoadStream(id) =>
      var r := store.Load(id);
      answer := Loaded(r.value);
    case AppendBatch(id, expected, events) =>
      var error := store.Append(id, expected, events, NoFault);
      answer := AnswerOf(error);
    case FailingAppend(id, expected, events, fault, _) =>
      var error := store.Append(id, expected, events, fault);
      answer := AnswerOf(error);
  }

  /** One command for both: stores with one log keep one log and one answer, or part over the CHECK. */
  method RunBoth(memory: InMemoryEventStore, sqlite: SqliteEventStore, c: Command) returns (a: Answer, b: Answer)
    requires memory.Valid() && sqlite.Valid() && ReallyFails(c)
    modifies memory, sqlite
    ensures memory.Valid() && sqlite.Valid()
    ensures StepsTogether(c, SqliteCheck(sqlite.serializer, sqlite.jsonValid), (old(memory.log), old(sqlite.log)),
                          (memory.log, sqlite.log), a, b)
  {
    a := RunInMemory(memory, c);
    b := RunSqlite(sqlite, c);
  }

  // ---------------------------------------------------------------- the PostgreSQL transactions

  /** Every transaction is over. */
  ghost predicate Idle(maxEvents: int, s: P.State, n: nat) {
    P.Inv(maxEvents, s) && forall t | t in s.txs :: t < n && s.txs[t].pc.Finished?
  }

  function FailNow(t: nat): seq<P.Action> { [P.Fail(t), P.LoseCommitAnswer(t, false), P.Advance(t)] }

  function ReplyOf(s: P.State, t: nat, id: Id, expected: int): Answer {
    if t in s.txs && s.txs[t].pc.Finished? then AnswerOf(A.ErrorOf(id, expected, s.txs[t].pc.reply))
    else Rejected(StoreFailed)
  }

  /** The n-th command as transaction n; `rows` is what its SELECT returned, if it is a load. */
  function PostgresStep(maxEvents: int, s: P.State, n: nat, c: Command, rows: seq<L.Row>): (P.State, Answer) {
    match c
    case LoadStream(id) => (
      match L.DecodeStream(id, maxEvents, rows)
      case Success(events) => (s, Loaded(events))
      case Failure(e) => (s, Rejected(e)))
    case AppendBatch(id, expected, events) =>
      var done := A.Steps(maxEvents, P.Apply(maxEvents, s, P.Call(n, id, expected, events)), n, 5);
      (done, ReplyOf(done, n, id, expected))
    case FailingAppend(id, expected, events, _, statements) =>
      var begun := A.Steps(maxEvents, P.Apply(maxEvents, s, P.Call(n, id, expected, events)), n, statements);
      var done := R.ApplyAll(maxEvents, begun, FailNow(n));
      (done, ReplyOf(done, n, id, expected))
  }

  function PostgresRun(maxEvents: int, commands: seq<Command>, rows: seq<seq<L.Row>>): (P.State, seq<Answer>)
    requires |rows| == |commands|
  {
    if commands == [] then (P.EMPTY, [])
    else
      var n := |commands| - 1;
      var before := PostgresRun(maxEvents, commands[..n], rows[..n]);
      var step := PostgresStep(maxEvents, before.0, n, commands[n], rows[n]);
      (step.0, before.1 + [step.1])
  }

  /** Each load got rows that its statement may return on the tables as they were. */
  ghost predicate RowsAreSelected(maxEvents: int, commands: seq<Command>, rows: seq<seq<L.Row>>) {
    |rows| == |commands| &&
    forall n | 0 <= n < |commands| && commands[n].LoadStream? ::
      L.Selects(L.RawOf(PostgresRun(maxEvents, commands[..n], rows[..n]).0.tables), commands[n].id, maxEvents + 1,
                rows[n])
  }

  // ---------------------------------------------------------------- validating first

  ghost predicate WithinBound(maxEvents: int, log: Log) {
    forall id :: |Stream(log, id)| <= maxEvents
  }

  ghost predicate AlwaysWithinBound(maxEvents: int, commands: seq<Command>) {
    forall n | 0 <= n <= |commands| :: WithinBound(maxEvents, ContractRun(commands[..n]).0)
  }

  lemma {:induction false} BatchErrorKinds(id: Id, expected: int, events: seq<Event>)
    ensures var e := BatchError(id, expected, events);
      e.Some? ==>
        e != Some(BadVersion) && e != Some(StreamTooLarge) && (e.value.VersionConflict? ==> e.value.expected > expected)
    decreases |events|
  {
    if events != [] {
      BatchErrorKinds(id, expected + 1, events[1..]);
    }
  }

  /** Within the bound, validating first changes which errors are named, and nothing else. */
  lemma ValidatingFirstAgrees(maxEvents: int, log: Log, id: Id, expected: int, events: seq<Event>)
    requires maxEvents <= MAX_SAFE && WithinBound(maxEvents, ContractStep(log, AppendBatch(id, expected, events)).0)
    ensures var a, b := CompareAndAppend(log, id, expected, events),
                        P.ValidatedAppend(log, id, expected, events, maxEvents);
      a == b || (a.Refused? && b.Refused?)
  {
    if CompareAndAppend(log, id, expected, events).Stored? {
      assert |Stream(ContractStep(log, AppendBatch(id, expected, events)).0, id)| == expected + |events|;
    }
  }

  /**
   * Which error is named differs exactly if the version is stale and the batch is one that PostgreSQL turns
   * away before it looks at the stream, or the version is right and the batch would pass the bound.
   */
  lemma RefusalsDifferExactly(maxEvents: int, log: Log, id: Id, expected: int, events: seq<Event>)
    requires maxEvents <= MAX_SAFE && |Stream(log, id)| <= maxEvents
    requires CompareAndAppend(log, id, expected, events).Refused?
    requires P.ValidatedAppend(log, id, expected, events, maxEvents).Refused?
    ensures
      CompareAndAppend(log, id, expected, events).error !=
      P.ValidatedAppend(log, id, expected, events, maxEvents).error <==>
        if |Stream(log, id)| != expected then P.Prevalidate(id, expected, events, maxEvents).Some?
        else expected + |events| > maxEvents
  {
    BatchErrorKinds(id, expected, events);
  }

  // ---------------------------------------------------------------- PostgreSQL follows the contract

  /** How many more statements a transaction needs before it can have committed. */
  function Distance(tx: P.Tx): int {
    match tx.pc
    case BeginTx => if tx.ownHead.Some? then 4 else 5
    case InsertHead => 4
    case Fence => if tx.ownHead.Some? then 3 else 4
    case FenceWait => 3
    case InsertRows => 2
    case Commit => 1
    case _ => 6
  }

  lemma StatementsBringNearer(maxEvents: int, s: P.State, t: nat)
    requires t in s.txs && Distance(s.txs[t]) > 1 && !s.txs[t].applied
    ensures var n := P.Apply(maxEvents, s, P.Advance(t));
      n.tables == s.tables && t in n.txs && n.txs == s.txs[t := n.txs[t]] && !n.txs[t].applied &&
      Distance(n.txs[t]) >= Distance(s.txs[t]) - 1 && n.txs[t].batch == s.txs[t].batch
  {
    var n := P.Statement(s, t);
    assert n.txs == s.txs[t := n.txs[t]];
  }

  lemma {:induction false} FewStatementsCommitNothing(maxEvents: int, s: P.State, t: nat, n: nat)
    requires t in s.txs && Distance(s.txs[t]) > n && !s.txs[t].applied
    ensures var end := A.Steps(maxEvents, s, t, n);
      end.tables == s.tables && t in end.txs && end.txs == s.txs[t := end.txs[t]] && !end.txs[t].applied &&
      end.txs[t].batch == s.txs[t].batch
    decreases n
  {
    if n > 0 {
      StatementsBringNearer(maxEvents, s, t);
      FewStatementsCommitNothing(maxEvents, P.Apply(maxEvents, s, P.Advance(t)), t, n - 1);
    }
  }

  lemma ThreeActions(maxEvents: int, s: P.State, a: P.Action, b: P.Action, c: P.Action)
    ensures R.ApplyAll(maxEvents, s, [a, b, c]) == A.Three(maxEvents, s, a, b, c)
  {
    assert [a, b, c][1..] == [b, c] && [b, c][1..] == [c] && [c][1..] == [];
    assert R.ApplyAll(maxEvents, A.Three(maxEvents, s, a, b, c), []) == A.Three(maxEvents, s, a, b, c);
    assert R.ApplyAll(maxEvents, P.Apply(maxEvents, P.Apply(maxEvents, s, a), b), [c]) ==
      A.Three(maxEvents, s, a, b, c);
  }

  lemma FailingNowEnds(maxEvents: int, s: P.State, t: nat)
    requires t in s.txs && !s.txs[t].applied
    ensures var end := R.ApplyAll(maxEvents, s, FailNow(t));
      end.tables == s.tables && t in end.txs && end.txs == s.txs[t := end.txs[t]] && end.txs[t].pc.Finished? &&
      end.txs[t].applied == s.txs[t].applied && end.txs[t].batch == s.txs[t].batch &&
      (s.txs[t].pc.Finished? ==> end == s) &&
      (!s.txs[t].pc.Finished? && !s.txs[t].pc.Rollback? ==> end.txs[t].pc.reply.Failed?)
  {
    ThreeActions(maxEvents, s, P.Fail(t), P.LoseCommitAnswer(t, false), P.Advance(t));
    var pc := s.txs[t].pc;
    if !pc.Finished? && !pc.CompareOnly? {
      var reply := if pc.Rollback? then pc.reply else P.Failed(StoreFailed);
      var failing := P.Put(s, t, s.txs[t].(pc := P.Rollback(reply)));
      assert P.Apply(maxEvents, P.Apply(maxEvents, s, P.Fail(t)), P.LoseCommitAnswer(t, false)) == failing;
    }
  }

  /** Transaction n on its own: what it is called with, from an idle state. */
  lemma IdleHasNoLocks(maxEvents: int, s: P.State, n: nat)
    requires Idle(maxEvents, s, n)
    ensures s.locks == map[] && n !in s.txs
  {
    forall t | t in s.txs ensures s.txs[t].ownHead.None? {
      assert P.TxFits(maxEvents, s, t, s.txs[t]);
    }
    assert forall id :: id !in s.locks;
    assert s.locks.Keys == {};
  }

  lemma OneMoreIdle(maxEvents: int, s: P.State, end: P.State, n: nat)
    requires Idle(maxEvents, s, n) && P.Inv(maxEvents, end)
    requires n in end.txs && end.txs == s.txs[n := end.txs[n]] && end.txs[n].pc.Finished?
    ensures Idle(maxEvents, end, n + 1)
  {
  }

  lemma LoneAppendInTurn(maxEvents: int, s: P.State, n: nat, id: Id, expected: int, events: seq<Event>)
    requires Idle(maxEvents, s, n)
    ensures var done := PostgresStep(maxEvents, s, n, AppendBatch(id, expected, events), []).0;
      var result := P.ValidatedAppend(P.LogOf(s.tables), id, expected, events, maxEvents);
      Idle(maxEvents, done, n + 1) &&
      A.EndsAs(s, done, n, id, expected, if result.Refused? || AllPass(events) then result else Refused(StoreFailed))
  {
    var call := P.Call(n, id, expected, events);
    var called := P.Apply(maxEvents, s, call);
    IdleHasNoLocks(maxEvents, s, n);
    A.LoneAppendBehaves(maxEvents, s, n, id, expected, events);
    R.ApplyKeepsInv(maxEvents, s, call);
    A.StepsAreActions(maxEvents, called, n, 5);
    R.ApplyAllKeepsInv(maxEvents, called, A.Times(n, 5));
    OneMoreIdle(maxEvents, s, A.Steps(maxEvents, called, n, 5), n);
  }

  lemma AnswerAtEnd(maxEvents: int, s: P.State, n: nat, id: Id, expected: int, events: seq<Event>, result: Appended)
    requires P.GoodTables(s.tables)
    requires
      A.EndsAs(s, PostgresStep(maxEvents, s, n, AppendBatch(id, expected, events), []).0, n, id, expected, result)
    ensures var step := PostgresStep(maxEvents, s, n, AppendBatch(id, expected, events), []);
      P.GoodTables(step.0.tables) &&
      match result
      case Stored(log) => P.LogOf(step.0.tables) == log && step.1 == Accepted
      case Refused(e) => step.0.tables == s.tables && step.1 == Rejected(e)
  {
  }

  lemma AppendAgrees(maxEvents: int, s: P.State, n: nat, id: Id, expected: int, events: seq<Event>)
    requires maxEvents <= MAX_SAFE && Idle(maxEvents, s, n)
    requires WithinBound(maxEvents, ContractStep(P.LogOf(s.tables), AppendBatch(id, expected, events)).0)
    ensures var c := AppendBatch(id, expected, events);
      var step := PostgresStep(maxEvents, s, n, c, []);
      Idle(maxEvents, step.0, n + 1) &&
      if Takes(P.LogOf(s.tables), c) && !AllPass(events) then
        step.0.tables == s.tables && step.1 == Rejected(StoreFailed)
      else
        P.LogOf(step.0.tables) == ContractStep(P.LogOf(s.tables), c).0 &&
        SameAnswer(step.1, ContractStep(P.LogOf(s.tables), c).1)
  {
    var result := P.ValidatedAppend(P.LogOf(s.tables), id, expected, events, maxEvents);
    LoneAppendInTurn(maxEvents, s, n, id, expected, events);
    ValidatingFirstAgrees(maxEvents, P.LogOf(s.tables), id, expected, events);
    AnswerAtEnd(maxEvents, s, n, id, expected, events,
                if result.Refused? || AllPass(events) then result else Refused(StoreFailed));
  }

  lemma FailingAppendEnds(maxEvents: int, s: P.State, n: nat, c: Command)
    requires n !in s.txs && c.FailingAppend? && ReallyFails(c)
    ensures var done := PostgresStep(maxEvents, s, n, c, []).0;
      done.tables == s.tables && n in done.txs && done.txs == s.txs[n := done.txs[n]] && done.txs[n].pc.Finished? &&
      !done.txs[n].applied && done.txs[n].batch == c.events &&
      (c.events == [] ==> !done.txs[n].pc.reply.Appended?)
  {
    var called := P.Apply(maxEvents, s, P.Call(n, c.id, c.expected, c.events));
    assert called == P.Put(s, n, P.NewTx(s, c.id, c.expected, c.events, maxEvents));
    FewStatementsCommitNothing(maxEvents, called, n, c.statements);
    FailingNowEnds(maxEvents, A.Steps(maxEvents, called, n, c.statements), n);
    assert c.events == [] ==> A.Steps(maxEvents, called, n, c.statements) == called;
  }

  lemma FailingAppendKeepsInv(maxEvents: int, s: P.State, n: nat, c: Command)
    requires P.Inv(maxEvents, s) && c.FailingAppend?
    ensures P.Inv(maxEvents, PostgresStep(maxEvents, s, n, c, []).0)
  {
    var call := P.Call(n, c.id, c.expected, c.events);
    R.ApplyKeepsInv(maxEvents, s, call);
    var called := P.Apply(maxEvents, s, call);
    A.StepsAreActions(maxEvents, called, n, c.statements);
    R.ApplyAllKeepsInv(maxEvents, called, A.Times(n, c.statements));
    R.ApplyAllKeepsInv(maxEvents, A.Steps(maxEvents, called, n, c.statements), FailNow(n));
  }

  lemma FailingAppendAgrees(maxEvents: int, s: P.State, n: nat, c: Command)
    requires Idle(maxEvents, s, n) && c.FailingAppend? && ReallyFails(c)
    ensures var step := PostgresStep(maxEvents, s, n, c, []);
      Idle(maxEvents, step.0, n + 1) && step.0.tables == s.tables && step.1.Rejected?
  {
    var done := PostgresStep(maxEvents, s, n, c, []).0;
    IdleHasNoLocks(maxEvents, s, n);
    FailingAppendEnds(maxEvents, s, n, c);
    FailingAppendKeepsInv(maxEvents, s, n, c);
    OneMoreIdle(maxEvents, s, done, n);
    NotAcceptedUncommitted(maxEvents, done, n);
  }

  /** An append with events that has not committed was not told that it has. */
  lemma NotAcceptedUncommitted(maxEvents: int, s: P.State, t: nat)
    requires P.Inv(maxEvents, s) && t in s.txs && s.txs[t].pc.Finished? && !s.txs[t].applied
    ensures s.txs[t].batch != [] ==> !s.txs[t].pc.reply.Appended?
  {
    assert P.TxFits(maxEvents, s, t, s.txs[t]);
  }

  lemma LoadAgrees(maxEvents: int, s: P.State, n: nat, id: Id, rows: seq<L.Row>)
    requires maxEvents <= MAX_SAFE && Idle(maxEvents, s, n) && WithinBound(maxEvents, P.LogOf(s.tables))
    requires L.Selects(L.RawOf(s.tables), id, maxEvents + 1, rows)
    ensures PostgresStep(maxEvents, s, n, LoadStream(id), rows) == (s, Loaded(Stream(P.LogOf(s.tables), id)))
  {
    assert |Stream(P.LogOf(s.tables), id)| == |P.StreamOf(s.tables, id)| == P.HeadOf(s.tables, id);
    L.LoadReturnsTheStream(s.tables, id, maxEvents, rows);
  }

  ghost predicate Follows(maxEvents: int, commands: seq<Command>, run: (P.State, seq<Answer>)) {
    Idle(maxEvents, run.0, |commands|) && P.LogOf(run.0.tables) == ContractRun(commands).0 &&
    |run.1| == |ContractRun(commands).1| == |commands| &&
    forall i | 0 <= i < |commands| :: SameAnswer(run.1[i], ContractRun(commands).1[i])
  }

  lemma OneMoreFollows(
    maxEvents: int, commands: seq<Command>, before: (P.State, seq<Answer>), step: (P.State, Answer))
    requires commands != [] && Follows(maxEvents, commands[..|commands| - 1], before)
    requires Idle(maxEvents, step.0, |commands|)
    requires var c := ContractStep(P.LogOf(before.0.tables), commands[|commands| - 1]);
      P.LogOf(step.0.tables) == c.0 && SameAnswer(step.1, c.1)
    ensures Follows(maxEvents, commands, (step.0, before.1 + [step.1]))
  {
  }

  /** What the runs are about: commands within the bound, with rows that the loads may return. */
  ghost predicate Comparable(maxEvents: int, commands: seq<Command>, rows: seq<seq<L.Row>>) {
    0 <= maxEvents <= MAX_SAFE && AlwaysWithinBound(maxEvents, commands) &&
    RowsAreSelected(maxEvents, commands, rows) && forall i | 0 <= i < |commands| :: ReallyFails(commands[i])
  }

  lemma {:induction false} PassingCommandsAreFollowed(maxEvents: int, commands: seq<Command>, rows: seq<seq<L.Row>>)
    requires Comparable(maxEvents, commands, rows) && TakenPass(commands, AllPass)
    ensures Follows(maxEvents, commands, PostgresRun(maxEvents, commands, rows))
    decreases |commands|
  {
    if commands == [] {
      R.RunKeepsInv(maxEvents, []);
      assert P.Run(maxEvents, []) == P.EMPTY;
      assert P.LogOf(P.EMPTY.tables).Keys == {};
    } else {
      var n := |commands| - 1;
      PrefixesFit(maxEvents, commands, rows);
      PassingCommandsAreFollowed(maxEvents, commands[..n], rows[..n]);
      var before := PostgresRun(maxEvents, commands[..n], rows[..n]);
      CommandFits(maxEvents, commands, rows);
      CommandAgrees(maxEvents, before.0, n, commands[n], rows[n]);
      OneMoreFollows(maxEvents, commands, before, PostgresStep(maxEvents, before.0, n, commands[n], rows[n]));
    }
  }

  /** The contract took the batch, and PostgreSQL did not. */
  ghost predicate Parts(commands: seq<Command>, answers: seq<Answer>, i: nat) {
    i < |commands| && i < |answers| && i < |ContractRun(commands).1| && ContractRun(commands).1[i].Accepted? &&
    answers[i].Rejected?
  }

  lemma {:induction false} AnswersAreOnePerCommand(maxEvents: int, commands: seq<Command>, rows: seq<seq<L.Row>>)
    requires |rows| == |commands|
    ensures |ContractRun(commands).1| == |PostgresRun(maxEvents, commands, rows).1| == |commands|
    decreases |commands|
  {
    if commands != [] {
      var n := |commands| - 1;
      AnswersAreOnePerCommand(maxEvents, commands[..n], rows[..n]);
    }
  }

  lemma PartsGoesOn(maxEvents: int, commands: seq<Command>, rows: seq<seq<L.Row>>, i: nat)
    requires |rows| == |commands| && commands != []
    requires var n := |commands| - 1;
      Parts(commands[..n], PostgresRun(maxEvents, commands[..n], rows[..n]).1, i)
    ensures Parts(commands, PostgresRun(maxEvents, commands, rows).1, i)
  {
  }

  lemma LastParts(maxEvents: int, commands: seq<Command>, rows: seq<seq<L.Row>>)
    requires commands != [] && Comparable(maxEvents, commands, rows)
    requires var n := |commands| - 1;
      Comparable(maxEvents, commands[..n], rows[..n]) && TakenPass(commands[..n], AllPass) &&
      !PassesIfTaken(commands, n, AllPass)
    ensures Parts(commands, PostgresRun(maxEvents, commands, rows).1, |commands| - 1)
  {
    var n := |commands| - 1;
    PassingCommandsAreFollowed(maxEvents, commands[..n], rows[..n]);
    CommandFits(maxEvents, commands, rows);
    CommandAgrees(maxEvents, PostgresRun(maxEvents, commands[..n], rows[..n]).0, n, commands[n], rows[n]);
    AnswersAreOnePerCommand(maxEvents, commands[..n], rows[..n]);
    PartsAtEnd(maxEvents, commands, rows);
  }

  lemma PartsAtEnd(maxEvents: int, commands: seq<Command>, rows: seq<seq<L.Row>>)
    requires commands != [] && |rows| == |commands|
    requires var n := |commands| - 1;
      |ContractRun(commands[..n]).1| == |PostgresRun(maxEvents, commands[..n], rows[..n]).1| == n &&
      ContractStep(ContractRun(commands[..n]).0, commands[n]).1.Accepted? &&
      PostgresStep(maxEvents, PostgresRun(maxEvents, commands[..n], rows[..n]).0, n, commands[n], rows[n]).1.Rejected?
    ensures Parts(commands, PostgresRun(maxEvents, commands, rows).1, |commands| - 1)
  {
  }

  /** At the first batch that is taken but does not pass, the answers part. */
  lemma {:induction false} FailingCheckParts(maxEvents: int, commands: seq<Command>, rows: seq<seq<L.Row>>)
    returns (i: nat)
    requires Comparable(maxEvents, commands, rows) && !TakenPass(commands, AllPass)
    ensures Parts(commands, PostgresRun(maxEvents, commands, rows).1, i)
    decreases |commands|
  {
    var n := |commands| - 1;
    PrefixesFit(maxEvents, commands, rows);
    if TakenPass(commands[..n], AllPass) {
      LastParts(maxEvents, commands, rows);
      i := n;
    } else {
      i := FailingCheckParts(maxEvents, commands[..n], rows[..n]);
      PartsGoesOn(maxEvents, commands, rows, i);
    }
  }

  /**
   * On every sequence of loads, appends and failing appends that stays within the event bound, the
   * PostgreSQL transactions, one after another, hold the log and give the answers of the contract, except
   * that a refusal may name another error, exactly if every batch that the contract takes passes the CHECK.
   */
  lemma PostgresFollowsTheContract(maxEvents: int, commands: seq<Command>, rows: seq<seq<L.Row>>)
    requires Comparable(maxEvents, commands, rows)
    ensures Follows(maxEvents, commands, PostgresRun(maxEvents, commands, rows)) <==> TakenPass(commands, AllPass)
  {
    if TakenPass(commands, AllPass) {
      PassingCommandsAreFollowed(maxEvents, commands, rows);
    } else {
      var i := FailingCheckParts(maxEvents, commands, rows);
    }
  }

  /** What is known before the last command, once the others have been followed. */
  lemma CommandFits(maxEvents: int, commands: seq<Command>, rows: seq<seq<L.Row>>)
    requires commands != [] && AlwaysWithinBound(maxEvents, commands) && RowsAreSelected(maxEvents, commands, rows)
    requires var n := |commands| - 1;
      Follows(maxEvents, commands[..n], PostgresRun(maxEvents, commands[..n], rows[..n]))
    ensures var n := |commands| - 1;
      var s := PostgresRun(maxEvents, commands[..n], rows[..n]).0;
      WithinBound(maxEvents, P.LogOf(s.tables)) &&
      WithinBound(maxEvents, ContractStep(P.LogOf(s.tables), commands[n]).0) &&
      (commands[n].LoadStream? ==> L.Selects(L.RawOf(s.tables), commands[n].id, maxEvents + 1, rows[n]))
  {
    var n := |commands| - 1;
    assert commands[..|commands|] == commands;
    assert WithinBound(maxEvents, ContractRun(commands[..n]).0);
    assert WithinBound(maxEvents, ContractRun(commands[..|commands|]).0);
  }

  lemma CommandAgrees(maxEvents: int, s: P.State, n: nat, c: Command, rows: seq<L.Row>)
    requires maxEvents <= MAX_SAFE && Idle(maxEvents, s, n) && ReallyFails(c)
    requires WithinBound(maxEvents, P.LogOf(s.tables))
    requires WithinBound(maxEvents, ContractStep(P.LogOf(s.tables), c).0)
    requires c.LoadStream? ==> L.Selects(L.RawOf(s.tables), c.id, maxEvents + 1, rows)
    ensures var step := PostgresStep(maxEvents, s, n, c, rows);
      Idle(maxEvents, step.0, n + 1) &&
      if Takes(P.LogOf(s.tables), c) && !AllPass(c.events) then step.1 == Rejected(StoreFailed)
      else
        P.LogOf(step.0.tables) == ContractStep(P.LogOf(s.tables), c).0 &&
        SameAnswer(step.1, ContractStep(P.LogOf(s.tables), c).1)
  {
    match c
    case LoadStream(id) => LoadAgrees(maxEvents, s, n, id, rows);
    case AppendBatch(id, expected, events) => AppendAgrees(maxEvents, s, n, id, expected, events);
    case FailingAppend(_, _, _, _, _) => FailingAppendAgrees(maxEvents, s, n, c);
  }

  lemma PrefixesFit(maxEvents: int, commands: seq<Command>, rows: seq<seq<L.Row>>)
    requires commands != [] && AlwaysWithinBound(maxEvents, commands) && RowsAreSelected(maxEvents, commands, rows)
    ensures AlwaysWithinBound(maxEvents, commands[..|commands| - 1])
    ensures RowsAreSelected(maxEvents, commands[..|commands| - 1], rows[..|commands| - 1])
  {
    var init, initRows := commands[..|commands| - 1], rows[..|commands| - 1];
    forall n | 0 <= n <= |init| ensures WithinBound(maxEvents, ContractRun(init[..n]).0) {
      assert init[..n] == commands[..n];
    }
    forall n | 0 <= n < |init| && init[n].LoadStream?
      ensures L.Selects(L.RawOf(PostgresRun(maxEvents, init[..n], initRows[..n]).0.tables), init[n].id, maxEvents + 1,
                        initRows[n])
    {
      assert init[..n] == commands[..n] && initRows[..n] == rows[..n];
    }
  }

  // ---------------------------------------------------------------- all three

  ghost predicate AnswersAgree(
    commands: seq<Command>, memory: seq<Answer>, sqlite: seq<Answer>, postgres: seq<Answer>) {
    |memory| == |sqlite| == |postgres| == |commands| &&
    forall i | 0 <= i < |commands| ::
      SameAnswer(sqlite[i], memory[i]) && SameAnswer(postgres[i], memory[i]) &&
      (!commands[i].FailingAppend? ==> sqlite[i] == memory[i])
  }

  ghost predicate LocalAnswersAgree(commands: seq<Command>, memory: seq<Answer>, sqlite: seq<Answer>) {
    |memory| == |sqlite| == |commands| &&
    forall i | 0 <= i < |commands| ::
      SameAnswer(sqlite[i], memory[i]) && (!commands[i].FailingAppend? ==> sqlite[i] == memory[i])
  }

  lemma ContractGoesOn(commands: seq<Command>, i: nat)
    requires i < |commands|
    ensures var before, step := ContractRun(commands[..i]), ContractStep(ContractRun(commands[..i]).0, commands[i]);
      ContractRun(commands[..i + 1]) == (step.0, before.1 + [step.1])
  {
    assert commands[..i + 1][..i] == commands[..i] && commands[..i + 1][i] == commands[i];
  }

  lemma OneMoreAgrees(commands: seq<Command>, i: nat, memory: seq<Answer>, sqlite: seq<Answer>, a: Answer, b: Answer)
    requires i < |commands| && LocalAnswersAgree(commands[..i], memory, sqlite)
    requires SameAnswer(b, a) && (!commands[i].FailingAppend? ==> b == a)
    ensures LocalAnswersAgree(commands[..i + 1], memory + [a], sqlite + [b])
  {
  }

  lemma OneMoreParts(commands: seq<Command>, i: nat, memory: seq<Answer>, sqlite: seq<Answer>, a: Answer, b: Answer)
    requires i < |commands| && |memory| == |sqlite| == i
    requires !LocalAnswersAgree(commands[..i], memory, sqlite) || !SameAnswer(b, a)
    ensures !LocalAnswersAgree(commands[..i + 1], memory + [a], sqlite + [b])
  {
    if LocalAnswersAgree(commands[..i + 1], memory + [a], sqlite + [b]) {
      AgreementRestricts(commands, i, memory, sqlite, a, b);
    }
  }

  lemma AgreementRestricts(
    commands: seq<Command>, i: nat, memory: seq<Answer>, sqlite: seq<Answer>, a: Answer, b: Answer)
    requires i < |commands| && |memory| == |sqlite| == i
    requires LocalAnswersAgree(commands[..i + 1], memory + [a], sqlite + [b])
    ensures LocalAnswersAgree(commands[..i], memory, sqlite) && SameAnswer(b, a)
  {
    forall k | 0 <= k < i
      ensures SameAnswer(sqlite[k], memory[k]) && (!commands[..i][k].FailingAppend? ==> sqlite[k] == memory[k])
    {
      assert (memory + [a])[k] == memory[k] && (sqlite + [b])[k] == sqlite[k];
      assert commands[..i + 1][k] == commands[..i][k];
    }
    assert (memory + [a])[i] == a && (sqlite + [b])[i] == b;
  }

  /** One more command, and the answers agree as long as every batch taken passes, and no longer. */
  lemma StillExact(
    commands: seq<Command>, i: nat, pass: seq<Event> -> bool, memory: seq<Answer>, sqlite: seq<Answer>, a: Answer,
    b: Answer)
    requires i < |commands| && |memory| == |sqlite| == i
    requires LocalAnswersAgree(commands[..i], memory, sqlite) <==> TakenPass(commands[..i], pass)
    requires TakenPass(commands[..i], pass) ==>
      if PassesIfTaken(commands, i, pass) then SameAnswer(b, a) && (!commands[i].FailingAppend? ==> b == a)
      else !SameAnswer(b, a)
    ensures LocalAnswersAgree(commands[..i + 1], memory + [a], sqlite + [b]) <==> TakenPass(commands[..i + 1], pass)
  {
    OneMorePasses(commands, i, pass);
    if TakenPass(commands[..i + 1], pass) {
      OneMoreAgrees(commands, i, memory, sqlite, a, b);
    } else {
      OneMoreParts(commands, i, memory, sqlite, a, b);
    }
  }

  /** Where the comparison is after i commands. */
  ghost predicate Compared(
    commands: seq<Command>, i: nat, pass: seq<Event> -> bool, memoryLog: Log, sqliteLog: Log, memory: seq<Answer>,
    sqlite: seq<Answer>)
    requires i <= |commands|
  {
    |memory| == |sqlite| == i && (memoryLog, memory) == ContractRun(commands[..i]) &&
    (LocalAnswersAgree(commands[..i], memory, sqlite) <==> TakenPass(commands[..i], pass)) &&
    (TakenPass(commands[..i], pass) ==> sqliteLog == memoryLog)
  }

  lemma NothingCompared(commands: seq<Command>, pass: seq<Event> -> bool)
    ensures Compared(commands, 0, pass, map[], map[], [], [])
  {
    assert commands[..0] == [];
  }

  ghost predicate StepsTogether(
    c: Command, pass: seq<Event> -> bool, before: (Log, Log), after: (Log, Log), a: Answer, b: Answer)
  {
    (after.0, a) == ContractStep(before.0, c) &&
    (before.1 == before.0 ==>
      if Takes(before.0, c) && !pass(c.events) then !SameAnswer(b, a)
      else after.1 == after.0 && SameAnswer(b, a) && (!c.FailingAppend? ==> b == a))
  }

  lemma OneMoreCompared(
    commands: seq<Command>, i: nat, pass: seq<Event> -> bool, before: (Log, Log), after: (Log, Log),
    memory: seq<Answer>, sqlite: seq<Answer>, a: Answer, b: Answer)
    requires i < |commands| && Compared(commands, i, pass, before.0, before.1, memory, sqlite)
    requires StepsTogether(commands[i], pass, before, after, a, b)
    ensures Compared(commands, i + 1, pass, after.0, after.1, memory + [a], sqlite + [b])
  {
    ContractGoesOn(commands, i);
    OneMorePasses(commands, i, pass);
    StillExact(commands, i, pass, memory, sqlite, a, b);
  }

  method RunAll(memory: InMemoryEventStore, sqlite: SqliteEventStore, commands: seq<Command>)
    returns (inMemory: seq<Answer>, inSqlite: seq<Answer>)
    requires memory.Valid() && sqlite.Valid() && memory.log == sqlite.log == map[]
    requires forall i | 0 <= i < |commands| :: ReallyFails(commands[i])
    modifies memory, sqlite
    ensures memory.Valid() && sqlite.Valid()
    ensures Compared(commands, |commands|, SqliteCheck(sqlite.serializer, sqlite.jsonValid), memory.log, sqlite.log,
                     inMemory, inSqlite)
  {
    inMemory, inSqlite := [], [];
    ghost var pass := SqliteCheck(sqlite.serializer, sqlite.jsonValid);
    NothingCompared(commands, pass);
    for i := 0 to |commands|
      invariant memory.Valid() && sqlite.Valid()
      invariant Compared(commands, i, pass, memory.log, sqlite.log, inMemory, inSqlite)
    {
      ghost var before := (memory.log, sqlite.log);
      var a, b := RunBoth(memory, sqlite, commands[i]);
      OneMoreCompared(commands, i, pass, before, (memory.log, sqlite.log), inMemory, inSqlite, a, b);
      inMemory, inSqlite := inMemory + [a], inSqlite + [b];
    }
  }

  /**
   * New in-memory and SQLite stores, given the same commands: the in-memory one follows the contract, and
   * SQLite gives its answers, and then holds its log, exactly if every batch taken passes json_valid.
   */
  method CompareLocalStores(serializer: Serializer, jsonValid: Text -> bool, commands: seq<Command>)
    returns (memory: InMemoryEventStore, sqlite: SqliteEventStore, inMemory: seq<Answer>, inSqlite: seq<Answer>)
    requires Sound(serializer) && forall i | 0 <= i < |commands| :: ReallyFails(commands[i])
    ensures fresh(memory) && fresh(sqlite) && memory.Valid() && sqlite.Valid()
    ensures memory.log == ContractRun(commands).0 && inMemory == ContractRun(commands).1
    ensures LocalAnswersAgree(commands, inMemory, inSqlite) <==> TakenPass(commands, SqliteCheck(serializer, jsonValid))
    ensures LocalAnswersAgree(commands, inMemory, inSqlite) ==> sqlite.log == memory.log
  {
    memory := new InMemoryEventStore(serializer);
    sqlite := new SqliteEventStore(serializer, jsonValid);
    inMemory, inSqlite := RunAll(memory, sqlite, commands);
    assert commands[..|commands|] == commands;
  }

  /**
   * The stores are equivalent exactly on what all of them can store: new ones, given the same commands, give
   * the same answers, where two refusals may name different errors and a failing append is refused by all,
   * if and only if every batch that the contract takes passes the CHECKs of both event columns; and then
   * they hold the same log at the end.
   */
  method CompareStores(
    serializer: Serializer, jsonValid: Text -> bool, maxEvents: int, commands: seq<Command>,
    ghost rows: seq<seq<L.Row>>)
    returns (memory: InMemoryEventStore, sqlite: SqliteEventStore, ghost tables: P.Tables,
             inMemory: seq<Answer>, inSqlite: seq<Answer>, ghost inPostgres: seq<Answer>)
    requires Sound(serializer) && Comparable(maxEvents, commands, rows)
    ensures fresh(memory) && fresh(sqlite) && memory.Valid() && sqlite.Valid()
    ensures tables == PostgresRun(maxEvents, commands, rows).0.tables
    ensures inPostgres == PostgresRun(maxEvents, commands, rows).1
    ensures memory.log == ContractRun(commands).0 && inMemory == ContractRun(commands).1
    ensures AnswersAgree(commands, inMemory, inSqlite, inPostgres) <==>
      TakenPass(commands, SqliteCheck(serializer, jsonValid)) && TakenPass(commands, AllPass)
    ensures AnswersAgree(commands, inMemory, inSqlite, inPostgres) ==>
      P.GoodTables(tables) && memory.log == sqlite.log == P.LogOf(tables)
  {
    memory, sqlite, inMemory, inSqlite := CompareLocalStores(serializer, jsonValid, commands);
    PostgresFollowsTheContract(maxEvents, commands, rows);
    AnswersAreOnePerCommand(maxEvents, commands, rows);
    ghost var run := PostgresRun(maxEvents, commands, rows);
    tables, inPostgres := run.0.tables, run.1;
    if !TakenPass(commands, AllPass) {
      ghost var i := FailingCheckParts(maxEvents, commands, rows);
      assert !SameAnswer(inPostgres[i], inMemory[i]);
    }
    AgreementSplits(commands, inMemory, inSqlite, inPostgres);
  }

  lemma AgreementSplits(commands: seq<Command>, memory: seq<Answer>, sqlite: seq<Answer>, postgres: seq<Answer>)
    ensures AnswersAgree(commands, memory, sqlite, postgres) <==>
      LocalAnswersAgree(commands, memory, sqlite) && |postgres| == |commands| &&
      forall i | 0 <= i < |commands| :: SameAnswer(postgres[i], memory[i])
  {
  }

  // ---------------------------------------------------------------- where they part

  /** A creation whose payload is the string of one code unit 0, which JSON text escapes. */
  function NulCreation(id: Id, correlationId: Text, hash: Text): Event {
    WasCreated(SCHEMA_VERSION, id, 1, 0, correlationId, 1, Str([0]), [], hash)
  }

  /** The stores do part: the contract takes this event, and the PostgreSQL transaction rolls back. */
  lemma NulPayloadPartsTheStores(maxEvents: int, id: Id, correlationId: Text, hash: Text)
    requires id != [] && correlationId != [] && IsTokenHash(hash) && 1 <= maxEvents <= MAX_SAFE
    ensures var e := NulCreation(id, correlationId, hash);
      var c := AppendBatch(id, 0, [e]);
      var step := PostgresStep(maxEvents, P.EMPTY, 0, c, []);
      ContractStep(map[], c) == (map[id := [e]], Accepted) &&
      step.1 == Rejected(StoreFailed) && step.0.tables == P.EMPTY.tables
  {
    var e := NulCreation(id, correlationId, hash);
    BatchPassesExactly(id, 0, [e]);
    R.RunKeepsInv(maxEvents, []);
    assert P.Run(maxEvents, []) == P.EMPTY;
    assert P.LogOf(P.EMPTY.tables).Keys == {};
    assert Stream(map[], id) + [e] == [e];
    assert !PassesCheck([e][0]);
    WithinBoundOfOne(maxEvents, id, e);
    AppendAgrees(maxEvents, P.EMPTY, 0, id, 0, [e]);
  }

  lemma WithinBoundOfOne(maxEvents: int, id: Id, e: Event)
    requires maxEvents >= 1
    ensures WithinBound(maxEvents, map[id := [e]])
  {
  }
}
