/**
 * The continuation service as a state machine. Any number of create, inspect, resume and cancel
 * operations run against one shared log; every await of the source is a program counter, and between
 * two steps of one operation any others may run, crash or lose their acknowledgement.
 */
module Service {
  import opened Text16
  import opened JsonText
  import opened Domain
  import opened EventLog

  datatype Request =
    | Create(id: Option<Id>, correlationId: Option<Text>, expiresAt: Option<Time>, payload: Json,
             metadata: seq<Member>)
    | Inspect(continuationId: Id)
    | Resume(continuationId: Id, idempotencyKey: Text, resumePayload: Json, resumeToken: Text)
    | Cancel(continuationId: Id, expectedVersion: Option<int>, reason: Option<Text>)

  /** How the service is configured: the token hash, and the lifetime of a token in milliseconds. */
  datatype Config = Config(hash: Text -> Text, tokenTtl: Time)

  /** Where an operation waits. Each counter is one await of the source. */
  datatype Pc =
    | Start
    | IssueToken(now: Time, id: Id, correlationId: Text, expiresAt: Time)
    | AppendCreated(event: Event)
    | CheckToken(loaded: Envelope, storedHash: Text)
    | RejectToken
    | AppendExpired(pending: Envelope, event: Event)
    | ObserveExpired(expired: Envelope)
    | ReloadExpired
    | Settled(current: Envelope)
    | AppendTransition(pending: Envelope, event: Event)
    | Observe(next: Envelope)
    | Reload(conflict: Error)
    | RecheckToken(loaded: Envelope, storedHash: Text, conflict: Error)
    | Done(outcome: Result<Envelope>)
    | Crashed

  /**
   * What one await may bring: a clock reading, generated texts, a failure before or after its effect, or,
   * at an append, a store that validates the batch before it compares versions, or that is at its bound.
   */
  datatype Fault = NoFault | FailsBefore | FailsAfter | ValidatesFirst | BoundExceeded

  predicate Fails(fault: Fault) { fault.FailsBefore? || fault.FailsAfter? }

  datatype Env = Env(now: Time, freshId: Text, freshCorrelationId: Text, issuedToken: Text, fault: Fault)

  /**
   * One operation. `seen` is the target stream when the request arrived, `reading` the clock reading
   * that decided expiry or dates a creation, `stamp` the second reading that a resume takes for its event,
   * `token` the token issued to a create, which it returns with its envelope, and `committed` the event
   * this operation itself appended, if any.
   */
  datatype Op =
    Op(request: Request, seen: seq<Event>, reading: Option<Time>, stamp: Option<Time>, token: Option<Text>,
       committed: Option<Event>, pc: Pc)

  datatype Fact =
    | Transitioned(op: nat, id: Id, version: int, status: Status)
    | TokenRejected(op: nat, id: Id)

  /** What a step does: an event appended to the log, the operation's next state, a fact observed. */
  datatype Effect = Effect(append: Option<Event>, op: Op, fact: Option<Fact>)

  // ---------------------------------------------------------------- pure decisions

  function HexValueOf(c: CodeUnit): int
    requires IsHex(c)
  {
    if 48 <= c <= 57 then c as int - 48 else if 97 <= c <= 102 then c as int - 87 else c as int - 55
  }

  /** Two well-formed hashes that decode to the same bytes; anything malformed matches nothing. */
  predicate TokenHashesEqual(left: Text, right: Text) {
    IsTokenHash(left) && IsTokenHash(right) &&
    forall i | 0 <= i < 64 :: HexValueOf(left[i]) == HexValueOf(right[i])
  }

  /** A hexadecimal digit with its letter in lower case. */
  function LowerCase(c: CodeUnit): CodeUnit {
    if 65 <= c <= 70 then c + 32 else c
  }

  /** Hashes match exactly if both are well formed and they are equal up to the case of their letters. */
  lemma HashesMatchUpToCase(left: Text, right: Text)
    ensures TokenHashesEqual(left, right) <==>
      IsTokenHash(left) && IsTokenHash(right) && forall i | 0 <= i < 64 :: LowerCase(left[i]) == LowerCase(right[i])
  {
    if IsTokenHash(left) && IsTokenHash(right) {
      forall i | 0 <= i < 64
        ensures HexValueOf(left[i]) == HexValueOf(right[i]) <==> LowerCase(left[i]) == LowerCase(right[i])
      {
        assert left[i] in left && right[i] in right;
      }
    }
  }

  datatype Resolution = Open | Completed(envelope: Envelope) | Refuse(error: Error)

  function ResolveCompletedResume(state: Envelope, id: Id, key: Text, payload: Json): Resolution {
    if !state.Resumed? then Open
    else if state.idempotencyKey != key then Refuse(TokenAlreadyUsed(id))
    else if CanonicalJson(state.resumePayload) != CanonicalJson(payload) then Refuse(IdempotencyConflict(id))
    else Completed(state)
  }

  function ResolveCompletedCancellation(
    state: Envelope, id: Id, expectedVersion: Option<int>, reason: Option<Text>): Result<Envelope>
    requires state.Cancelled?
  {
    if state.reason != reason then Failure(InvalidTransition(id, IsCancelled, CancelledType))
    else if expectedVersion.Some? && state.base.version != expectedVersion.value + 1 then
      Failure(VersionConflict(id, expectedVersion.value, state.base.version))
    else Success(state)
  }

  // ---------------------------------------------------------------- one step of one operation

  function Goto(op: Op, pc: Pc): Effect { Effect(None, op.(pc := pc), None) }

  function Finish(op: Op, outcome: Result<Envelope>): Effect { Goto(op, Done(outcome)) }

  /** Enter #expireIfDue with the clock reading that decides it. */
  function EnterExpiry(op: Op, state: Envelope, now: Time): Effect {
    var timed := op.(reading := Some(now));
    if !state.Pending? || now < state.base.expiresAt then Goto(timed, Settled(state))
    else Goto(timed, AppendExpired(state,
      WasExpired(SCHEMA_VERSION, state.base.continuationId, state.base.version + 1, now)))
  }

  /** The store's append: it may fail before or after committing, conflict, or commit and answer. */
  function Append(
    log: Log, op: Op, event: Event, expected: int, env: Env, onConflict: Pc, onCommit: Pc): Effect
  {
    var id := event.continuationId;
    if env.fault.FailsBefore? then Finish(op, Failure(StoreFailed))
    else if env.fault.BoundExceeded? then Finish(op, Failure(StreamTooLarge))
    else if env.fault.ValidatesFirst? && !Storable(event) then Finish(op, Failure(BadEvent))
    else
      match CompareAndAppend(log, id, expected, [event])
      case Refused(e) =>
        if e.VersionConflict? then Goto(op, onConflict) else Finish(op, Failure(e))
      case Stored(_) =>
        Effect(Some(event),
               op.(committed := Some(event),
                   pc := if env.fault.FailsAfter? then Done(Failure(StoreFailed)) else onCommit),
               None)
  }

  function AfterReduce(state: Option<Envelope>, event: Event): Pc {
    match ReduceContinuation(state, event)
    case Failure(e) => Done(Failure(e))
    case Success(next) => Observe(next)
  }

  predicate Appends(pc: Pc) { pc.AppendCreated? || pc.AppendExpired? || pc.AppendTransition? }

  /** The version that an append compares with the stream's. */
  function ExpectedVersion(pc: Pc): int
    requires Appends(pc)
  {
    if pc.AppendCreated? then 0 else pc.pending.base.version
  }

  /** Where an operation goes when its append is told that the stream is at another version. */
  function OnConflict(pc: Pc, actual: int): Pc
    requires Appends(pc)
  {
    var conflict := VersionConflict(pc.event.continuationId, ExpectedVersion(pc), actual);
    match pc
    case AppendCreated(_) => Done(Failure(conflict))
    case AppendExpired(_, _) => ReloadExpired
    case AppendTransition(_, _) => Reload(conflict)
  }

  /** Where it goes when its append is acknowledged: it reduces the event and has the result observed. */
  function OnCommit(pc: Pc): Pc
    requires Appends(pc)
  {
    match pc
    case AppendCreated(event) => AfterReduce(None, event)
    case AppendExpired(pending, event) => (
      match ReduceContinuation(Some(pending), event)
      case Failure(e) => Done(Failure(e))
      case Success(expired) => ObserveExpired(expired))
    case AppendTransition(pending, event) => AfterReduce(Some(pending), event)
  }

  function StepStart(cfg: Config, log: Log, op: Op, env: Env): Effect {
    if op.request.Create? then
      var r := op.request;
      var expiresAt := if r.expiresAt.Some? then r.expiresAt.value else env.now + cfg.tokenTtl;
      var timed := op.(reading := Some(env.now));
      if expiresAt <= env.now then Finish(timed, Failure(BadExpiry))
      else Goto(timed, IssueToken(env.now,
        if r.id.Some? then r.id.value else env.freshId,
        if r.correlationId.Some? then r.correlationId.value else env.freshCorrelationId,
        expiresAt))
    else if Fails(env.fault) then Finish(op, Failure(StoreFailed))
    else
      var id := op.request.continuationId;
      var events := Stream(log, id);
      match ReplayContinuation(events)
      case Failure(e) => Finish(op, Failure(e))
      case Success(state) =>
        if state.None? then Finish(op, Failure(NotFound(id)))
        else if op.request.Inspect? then EnterExpiry(op, state.value, env.now)
        else if op.request.Resume? then
          if events != [] && events[0].WasCreated? then
            Goto(op, CheckToken(state.value, events[0].resumeTokenHash))
          else Finish(op, Failure(CorruptStream))
        else if state.value.Cancelled? then
          Finish(op, ResolveCompletedCancellation(state.value, id, op.request.expectedVersion, op.request.reason))
        else EnterExpiry(op, state.value, env.now)
  }

  function StepCheckToken(cfg: Config, op: Op, state: Envelope, storedHash: Text, env: Env, conflict: Option<Error>)
    : Effect
    requires op.request.Resume?
  {
    var r := op.request;
    if Fails(env.fault) then Finish(op, Failure(StoreFailed))
    else if !TokenHashesEqual(storedHash, cfg.hash(r.resumeToken)) then Goto(op, RejectToken)
    else
      match ResolveCompletedResume(state, r.continuationId, r.idempotencyKey, r.resumePayload)
      case Completed(envelope) => Finish(op, Success(envelope))
      case Refuse(e) => Finish(op, Failure(e))
      case Open => if conflict.Some? then Finish(op, Failure(conflict.value)) else EnterExpiry(op, state, env.now)
  }

  function StepSettled(op: Op, state: Envelope, env: Env): Effect {
    match op.request
    case Create(_, _, _, _, _) => Goto(op, op.pc)
    case Inspect(_) => Finish(op, Success(state))
    case Resume(id, key, payload, _) => (
      match state
      case Expired(_, _) => Finish(op, Failure(ContinuationExpired(state.base.continuationId)))
      case Cancelled(_, _, _) => Finish(op, Failure(ContinuationCancelled(state.base.continuationId)))
      case Resumed(_, _, _, _) => Finish(op, Failure(TokenAlreadyUsed(state.base.continuationId)))
      case Pending(_, _) =>
        Goto(op.(stamp := Some(env.now)), AppendTransition(state,
          WasResumed(SCHEMA_VERSION, id, state.base.version + 1, env.now, key, payload))))
    case Cancel(id, expectedVersion, reason) =>
      if state.Cancelled? then Finish(op, ResolveCompletedCancellation(state, id, expectedVersion, reason))
      else if state.Expired? then Finish(op, Failure(ContinuationExpired(id)))
      else if !state.Pending? then Finish(op, Failure(InvalidTransition(id, StatusOf(state), CancelledType)))
      else if expectedVersion.Some? && state.base.version != expectedVersion.value then
        Finish(op, Failure(VersionConflict(id, expectedVersion.value, state.base.version)))
      else
        var now := if op.reading.Some? then op.reading.value else env.now;
        Goto(op, AppendTransition(state, WasCancelled(SCHEMA_VERSION, id, state.base.version + 1, now, reason)))
  }

  /** Reload after a lost append: resume checks the token again, cancel reclassifies, expiry just returns. */
  function StepReload(log: Log, op: Op, env: Env, conflict: Option<Error>): Effect
    requires !op.request.Create?
  {
    var id := op.request.continuationId;
    var events := Stream(log, id);
    if Fails(env.fault) then Finish(op, Failure(StoreFailed))
    else
      match ReplayContinuation(events)
      case Failure(e) => Finish(op, Failure(e))
      case Success(state) =>
        if state.None? then Finish(op, Failure(NotFound(id)))
        else if conflict.None? then Goto(op, Settled(state.value))
        else if op.request.Resume? then
          if events != [] && events[0].WasCreated? then
            Goto(op, RecheckToken(state.value, events[0].resumeTokenHash, conflict.value))
          else Finish(op, Failure(CorruptStream))
        else if state.value.Cancelled? && op.request.Cancel? then
          Finish(op, ResolveCompletedCancellation(state.value, id, op.request.expectedVersion, op.request.reason))
        else if state.value.Expired? then Finish(op, Failure(ContinuationExpired(id)))
        else Finish(op, Failure(conflict.value))
  }

  function FactOf(o: nat, state: Envelope): Option<Fact> {
    Some(Transitioned(o, state.base.continuationId, state.base.version, StatusOf(state)))
  }

  /** An observer's failure is swallowed, so observing ignores the fault. */
  function Step(cfg: Config, log: Log, o: nat, op: Op, env: Env): Effect {
    match op.pc
    case Start => StepStart(cfg, log, op, env)
    case IssueToken(now, id, correlationId, expiresAt) =>
      if !op.request.Create? then Goto(op, op.pc)
      else if Fails(env.fault) then Finish(op, Failure(StoreFailed))
      else Goto(op.(token := Some(env.issuedToken)), AppendCreated(
        WasCreated(SCHEMA_VERSION, id, 1, now, correlationId, expiresAt, op.request.payload, op.request.metadata,
                   cfg.hash(env.issuedToken))))
    case AppendCreated(event) =>
      Append(log, op, event, 0, env, OnConflict(op.pc, |Stream(log, event.continuationId)|), OnCommit(op.pc))
    case CheckToken(state, storedHash) =>
      if op.request.Resume? then StepCheckToken(cfg, op, state, storedHash, env, None) else Goto(op, op.pc)
    case RejectToken =>
      if op.request.Resume? then
        var id := op.request.continuationId;
        Effect(None, op.(pc := Done(Failure(TokenMismatch(id)))), Some(TokenRejected(o, id)))
      else Goto(op, op.pc)
    case AppendExpired(pending, event) =>
      Append(log, op, event, pending.base.version, env,
             OnConflict(op.pc, |Stream(log, event.continuationId)|), OnCommit(op.pc))
    case ObserveExpired(expired) => Effect(None, op.(pc := Settled(expired)), FactOf(o, expired))
    case ReloadExpired => if op.request.Create? then Goto(op, op.pc) else StepReload(log, op, env, None)
    case Settled(state) => StepSettled(op, state, env)
    case AppendTransition(pending, event) =>
      Append(log, op, event, pending.base.version, env,
             OnConflict(op.pc, |Stream(log, event.continuationId)|), OnCommit(op.pc))
    case Observe(next) => Effect(None, op.(pc := Done(Success(next))), FactOf(o, next))
    case Reload(conflict) => if op.request.Create? then Goto(op, op.pc) else StepReload(log, op, env, Some(conflict))
    case RecheckToken(state, storedHash, conflict) =>
      if op.request.Resume? then StepCheckToken(cfg, op, state, storedHash, env, Some(conflict)) else Goto(op, op.pc)
    case Done(_) => Goto(op, op.pc)
    case Crashed => Goto(op, op.pc)
  }

  // ---------------------------------------------------------------- whole runs

  datatype State = State(log: Log, ops: map<nat, Op>, facts: seq<Fact>)

  datatype Action = Begin(o: nat, request: Request) | Advance(o: nat, env: Env) | Crash(o: nat)

  const INITIAL := State(map[], map[], [])

  function Apply(cfg: Config, s: State, a: Action): State {
    match a
    case Begin(o, request) =>
      if o in s.ops then s
      else
        var seen := if request.Create? then [] else Stream(s.log, request.continuationId);
        s.(ops := s.ops[o := Op(request, seen, None, None, None, None, Start)])
    case Advance(o, env) =>
      if o !in s.ops then s
      else
        var e := Step(cfg, s.log, o, s.ops[o], env);
        State(
          if e.append.Some? then Extend(s.log, e.append.value.continuationId, [e.append.value]) else s.log,
          s.ops[o := e.op],
          if e.fact.Some? then s.facts + [e.fact.value] else s.facts)
    case Crash(o) =>
      if o !in s.ops || s.ops[o].pc.Done? then s else s.(ops := s.ops[o := s.ops[o].(pc := Crashed)])
  }

  /** The state after any sequence of arrivals, steps and crashes, in any order. */
  function Run(cfg: Config, actions: seq<Action>): State {
    if actions == [] then INITIAL
    else Apply(cfg, Run(cfg, actions[..|actions| - 1]), actions[|actions| - 1])
  }
}
