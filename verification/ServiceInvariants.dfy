/** What every step of the service keeps, for the log and for each operation at each program counter. */
module ServiceInvariants {
  import opened Text16
  import opened JsonText
  import opened Domain
  import opened EventLog
  import opened Service

  // ---------------------------------------------------------------- the log

  /** One stream: created with a deadline in the future, and closed at most once, on the right side of it. */
  ghost predicate GoodStream(id: Id, s: seq<Event>) {
    s == [] ||
    (LegalStream(s) && ContinuesStream(id, 0, s) && s[0].occurredAt < s[0].expiresAt &&
     (|s| == 2 && s[1].WasCancelled? ==> s[1].occurredAt < s[0].expiresAt) &&
     (|s| == 2 && s[1].WasExpired? ==> s[1].occurredAt >= s[0].expiresAt))
  }

  ghost predicate GoodLog(log: Log) {
    NoGhosts(log) && forall id :: GoodStream(id, Stream(log, id))
  }

  ghost predicate IsPendingOf(s: seq<Event>, state: Envelope) {
    s != [] && LegalStream(s) && state == StateOf(s[..1])
  }

  ghost predicate IsFinalOf(s: seq<Event>, state: Envelope) {
    |s| == 2 && LegalStream(s) && state == StateOf(s)
  }

  // ---------------------------------------------------------------- operations on an existing stream

  ghost predicate TokenFits(cfg: Config, r: Request, s: seq<Event>)
    requires r.Resume?
  {
    s != [] && s[0].WasCreated? && TokenHashesEqual(s[0].resumeTokenHash, cfg.hash(r.resumeToken))
  }

  ghost predicate ReadBefore(op: Op, s: seq<Event>) {
    op.reading.Some? && s != [] && s[0].WasCreated? && op.reading.value < s[0].expiresAt
  }

  ghost predicate ReadDue(op: Op, s: seq<Event>) {
    op.reading.Some? && s != [] && s[0].WasCreated? && op.reading.value >= s[0].expiresAt
  }

  /** The terminal event an operation may offer to the log, given its request and its clock reading. */
  ghost predicate MayOffer(cfg: Config, op: Op, s: seq<Event>, e: Event)
    requires !op.request.Create?
  {
    s != [] && Opens(s[0]) && Closes(s[0], e) && e.continuationId == op.request.continuationId &&
    match e
    case WasCreated(_, _, _, _, _, _, _, _, _) => false
    case WasResumed(_, _, _, at, key, payload) =>
      op.request.Resume? && key == op.request.idempotencyKey && payload == op.request.resumePayload &&
      TokenFits(cfg, op.request, s) && ReadBefore(op, s) && op.stamp == Some(at)
    case WasCancelled(_, _, _, at, reason) =>
      op.request.Cancel? && reason == op.request.reason && ReadBefore(op, s) && op.reading == Some(at) &&
      (op.request.expectedVersion.None? || op.request.expectedVersion.value == 1)
    case WasExpired(_, _, _, at) => ReadDue(op, s) && op.reading == Some(at)
  }

  /** What each outcome of a finished operation says about the log, for the rest of the run. */
  ghost predicate OutcomeFits(cfg: Config, op: Op, s: seq<Event>, outcome: Result<Envelope>)
    requires !op.request.Create?
  {
    match op.request
    case Inspect(_) => InspectOutcome(op, s, outcome)
    case Resume(_, _, _, _) => ResumeOutcome(cfg, op, s, outcome)
    case Cancel(_, _, _) => CancelOutcome(op, s, outcome)
  }

  /** The refusals of a batch for what it is, or for what it would make of the stream. */
  predicate IsBatchRefusal(e: Error) { e == BadEvent || e == StreamTooLarge }

  ghost predicate InspectOutcome(op: Op, s: seq<Event>, outcome: Result<Envelope>)
    requires op.request.Inspect?
  {
    match outcome
    case Success(state) => IsFinalOf(s, state) || (IsPendingOf(s, state) && ReadBefore(op, s) && |op.seen| < 2)
    case Failure(e) =>
      e == StoreFailed || (IsBatchRefusal(e) && |op.seen| < 2) ||
      (e == NotFound(op.request.continuationId) && op.seen == [])
  }

  ghost predicate ResumeOutcome(cfg: Config, op: Op, s: seq<Event>, outcome: Result<Envelope>)
    requires op.request.Resume?
  {
    match outcome
    case Success(state) => ResumeSucceeds(cfg, op.request, s, state) && !ReadDue(op, s)
    case Failure(e) => ResumeFails(cfg, op, s, e)
  }

  ghost predicate ResumeSucceeds(cfg: Config, r: Request, s: seq<Event>, state: Envelope)
    requires r.Resume?
  {
    IsFinalOf(s, state) && state.Resumed? && TokenFits(cfg, r, s) && state.idempotencyKey == r.idempotencyKey &&
    CanonicalJson(state.resumePayload) == CanonicalJson(r.resumePayload)
  }

  ghost predicate IsClosed(s: seq<Event>) { |s| == 2 && LegalStream(s) }

  ghost predicate ResumeFails(cfg: Config, op: Op, s: seq<Event>, e: Error)
    requires op.request.Resume?
  {
    var r := op.request;
    match e
    case StoreFailed => true
    case BadEvent => |op.seen| < 2
    case StreamTooLarge => |op.seen| < 2
    case NotFound(id) => id == r.continuationId && op.seen == []
    case TokenMismatch(id) => id == r.continuationId && s != [] && !TokenFits(cfg, r, s)
    case TokenAlreadyUsed(id) =>
      id == r.continuationId && IsClosed(s) && s[1].WasResumed? && TokenFits(cfg, r, s) &&
      (s[1].idempotencyKey != r.idempotencyKey || (ReadDue(op, s) && |op.seen| < 2))
    case IdempotencyConflict(id) =>
      id == r.continuationId && IsClosed(s) && s[1].WasResumed? && TokenFits(cfg, r, s) &&
      s[1].idempotencyKey == r.idempotencyKey &&
      CanonicalJson(s[1].resumePayload) != CanonicalJson(r.resumePayload)
    case ContinuationExpired(id) =>
      id == r.continuationId && IsClosed(s) && s[1].WasExpired? && TokenFits(cfg, r, s)
    case ContinuationCancelled(id) =>
      id == r.continuationId && IsClosed(s) && s[1].WasCancelled? && TokenFits(cfg, r, s)
    case VersionConflict(id, expected, actual) =>
      id == r.continuationId && expected == 1 && actual == 2 && IsClosed(s) && !s[1].WasResumed? &&
      TokenFits(cfg, r, s) && ReadBefore(op, s) && |op.seen| < 2
    case _ => false
  }

  ghost predicate CancelOutcome(op: Op, s: seq<Event>, outcome: Result<Envelope>)
    requires op.request.Cancel?
  {
    match outcome
    case Success(state) =>
      IsFinalOf(s, state) && state.Cancelled? && state.reason == op.request.reason &&
      (op.request.expectedVersion.None? || op.request.expectedVersion.value == 1)
    case Failure(e) => CancelFails(op, s, e)
  }

  ghost predicate CancelFails(op: Op, s: seq<Event>, e: Error)
    requires op.request.Cancel?
  {
    var r := op.request;
    match e
    case StoreFailed => true
    case BadEvent => |op.seen| < 2
    case StreamTooLarge => |op.seen| < 2
    case NotFound(id) => id == r.continuationId && op.seen == []
    case ContinuationExpired(id) => id == r.continuationId && IsClosed(s) && s[1].WasExpired?
    case InvalidTransition(id, from, event) =>
      id == r.continuationId && event == CancelledType && IsClosed(s) &&
      ((from == IsResumed && s[1].WasResumed?) ||
       (from == IsCancelled && s[1].WasCancelled? && s[1].reason != r.reason))
    case VersionConflict(id, expected, actual) =>
      id == r.continuationId &&
      if expected == 1 then
        actual == 2 && IsClosed(s) && s[1].WasResumed? && ReadBefore(op, s) && |op.seen| < 2
      else
        r.expectedVersion == Some(expected) && s != [] &&
        ((actual == 1 && |op.seen| < 2) ||
         (actual == 2 && IsClosed(s) && s[1].WasCancelled? && s[1].reason == r.reason))
    case _ => false
  }

  /** What is known at each program counter; `s` is the target stream now. */
  ghost predicate PcFits(cfg: Config, op: Op, s: seq<Event>)
    requires !op.request.Create?
  {
    var r := op.request;
    match op.pc
    case Start => op.committed.None? && op.reading.None?
    case CheckToken(state, storedHash) =>
      op.committed.None? && op.reading.None? && r.Resume? && s != [] && Opens(s[0]) &&
      storedHash == s[0].resumeTokenHash &&
      (IsFinalOf(s, state) || (IsPendingOf(s, state) && |op.seen| < 2))
    case RejectToken => op.committed.None? && r.Resume? && s != [] && !TokenFits(cfg, r, s)
    case AppendExpired(pending, e) =>
      op.committed.None? && IsPendingOf(s, pending) && e.WasExpired? && MayOffer(cfg, op, s, e) && |op.seen| < 2 &&
      (r.Resume? ==> TokenFits(cfg, r, s))
    case ObserveExpired(state) =>
      IsFinalOf(s, state) && op.committed == Some(s[1]) && state.Expired? && (r.Resume? ==> TokenFits(cfg, r, s))
    case ReloadExpired =>
      op.committed.None? && |s| == 2 && ReadDue(op, s) && |op.seen| < 2 && (r.Resume? ==> TokenFits(cfg, r, s))
    case Settled(state) =>
      (r.Resume? ==> TokenFits(cfg, r, s)) &&
      ((IsPendingOf(s, state) && ReadBefore(op, s) && |op.seen| < 2 && op.committed.None?) ||
       (IsFinalOf(s, state) && (r.Resume? && state.Resumed? ==> ReadDue(op, s) && |op.seen| < 2)))
    case AppendTransition(pending, e) =>
      op.committed.None? && IsPendingOf(s, pending) && !e.WasExpired? && MayOffer(cfg, op, s, e) && |op.seen| < 2
    case Observe(state) => IsFinalOf(s, state) && op.committed == Some(s[1]) && !s[1].WasExpired?
    case Reload(conflict) =>
      op.committed.None? && !r.Inspect? && |s| == 2 && conflict == VersionConflict(r.continuationId, 1, 2) &&
      ReadBefore(op, s) && |op.seen| < 2 && (r.Resume? ==> TokenFits(cfg, r, s)) &&
      (r.Cancel? ==> r.expectedVersion.None? || r.expectedVersion.value == 1)
    case RecheckToken(state, storedHash, conflict) =>
      op.committed.None? && r.Resume? && IsFinalOf(s, state) && storedHash == s[0].resumeTokenHash &&
      conflict == VersionConflict(r.continuationId, 1, 2) && ReadBefore(op, s) && |op.seen| < 2
    case Done(outcome) => OutcomeFits(cfg, op, s, outcome)
    case Crashed => true
    case IssueToken(_, _, _, _) => false
    case AppendCreated(_) => false
  }

  // ---------------------------------------------------------------- create operations

  /** The deadline that a create asks for, or gets from the lifetime of its token. */
  function DeadlineFor(cfg: Config, r: Request, now: Time): Time
    requires r.Create?
  {
    if r.expiresAt.Some? then r.expiresAt.value else now + cfg.tokenTtl
  }

  ghost predicate NamedAsAsked(cfg: Config, r: Request, id: Id, correlationId: Text, now: Time, expiresAt: Time)
    requires r.Create?
  {
    (r.id.Some? ==> id == r.id.value) && (r.correlationId.Some? ==> correlationId == r.correlationId.value) &&
    expiresAt == DeadlineFor(cfg, r, now) && now < expiresAt
  }

  /** A creation event that carries what the request asked for, the reading, and the hash of the issued token. */
  ghost predicate IsNewEvent(cfg: Config, op: Op, e: Event)
    requires op.request.Create?
  {
    Opens(e) && op.reading == Some(e.occurredAt) &&
    NamedAsAsked(cfg, op.request, e.continuationId, e.correlationId, e.occurredAt, e.expiresAt) &&
    e.payload == op.request.payload && e.metadata == op.request.metadata &&
    op.token.Some? && e.resumeTokenHash == cfg.hash(op.token.value)
  }

  /** The create has read its clock, at or past the deadline it was to have. */
  ghost predicate TooLate(cfg: Config, op: Op)
    requires op.request.Create?
  {
    op.reading.Some? && DeadlineFor(cfg, op.request, op.reading.value) <= op.reading.value
  }

  ghost predicate CreateFits(cfg: Config, log: Log, op: Op)
    requires op.request.Create?
  {
    (op.committed.Some? ==>
      IsNewEvent(cfg, op, op.committed.value) &&
      var s := Stream(log, op.committed.value.continuationId);
      s != [] && s[0] == op.committed.value) &&
    match op.pc
    case Start => op.committed.None?
    case IssueToken(now, id, correlationId, expiresAt) =>
      op.committed.None? && op.reading == Some(now) &&
      NamedAsAsked(cfg, op.request, id, correlationId, now, expiresAt)
    case AppendCreated(e) => op.committed.None? && IsNewEvent(cfg, op, e)
    case Observe(state) => op.committed.Some? && Opens(op.committed.value) && state == StateOf([op.committed.value])
    case Done(outcome) =>
      op.reading.Some? && (outcome == Failure(BadExpiry) <==> TooLate(cfg, op)) &&
      if outcome.Success? then
        op.committed.Some? && Opens(op.committed.value) && outcome.value == StateOf([op.committed.value])
      else CreateFails(log, op, outcome.error)
    case Crashed => true
    case _ => false
  }

  ghost predicate CreateFails(log: Log, op: Op, e: Error)
    requires op.request.Create?
  {
    e == BadExpiry || e == StoreFailed || IsBatchRefusal(e) ||
    (e.VersionConflict? && e.expected == 0 && e.actual > 0 && Stream(log, e.id) != [] && op.committed.None? &&
     (op.request.id.Some? ==> e.id == op.request.id.value))
  }

  // ---------------------------------------------------------------- the whole invariant

  ghost predicate OpFits(cfg: Config, log: Log, op: Op) {
    if op.request.Create? then CreateFits(cfg, log, op)
    else
      var s := Stream(log, op.request.continuationId);
      op.seen <= s &&
      (op.committed.Some? ==> |s| == 2 && op.committed.value == s[1] && MayOffer(cfg, op, s, s[1])) &&
      PcFits(cfg, op, s)
  }

  /** No two operations appended the same version of the same stream. */
  ghost predicate OneAuthor(ops: map<nat, Op>) {
    forall o, p | o in ops && p in ops && o != p && ops[o].committed.Some? && ops[p].committed.Some? ::
      !SamePlace(ops[o].committed.value, ops[p].committed.value)
  }

  predicate SamePlace(a: Event, b: Event) {
    a.continuationId == b.continuationId && a.version == b.version
  }

  /** Every event of the log was appended by some operation of this run. */
  ghost predicate EveryEventHasAuthor(log: Log, ops: map<nat, Op>) {
    forall id, k | 0 <= k < |Stream(log, id)| :: HasAuthor(Stream(log, id)[k], ops)
  }

  ghost predicate HasAuthor(e: Event, ops: map<nat, Op>) {
    exists o | o in ops :: ops[o].committed == Some(e)
  }

  function StatusAfter(e: Event): Status {
    match TypeOf(e)
    case CreatedType => IsPending
    case ResumedType => IsResumed
    case CancelledType => IsCancelled
    case ExpiredType => IsExpired
  }

  ghost predicate FactFits(f: Fact, ops: map<nat, Op>) {
    f.op in ops && !ops[f.op].pc.ObserveExpired? && !ops[f.op].pc.Observe? &&
    (f.TokenRejected? ==> ops[f.op].pc.Done?) &&
    (f.Transitioned? ==>
      ops[f.op].committed.Some? &&
      f.id == ops[f.op].committed.value.continuationId && f.version == ops[f.op].committed.value.version &&
      f.status == StatusAfter(ops[f.op].committed.value))
  }

  /** An observed transition was committed by the operation that reports it, and is reported once. */
  ghost predicate FactsFit(facts: seq<Fact>, ops: map<nat, Op>) {
    (forall i | 0 <= i < |facts| :: FactFits(facts[i], ops)) &&
    (forall i, j | 0 <= i < j < |facts| && facts[i].Transitioned? && facts[j].Transitioned? ::
      facts[i].op != facts[j].op)
  }

  ghost predicate AllFit(cfg: Config, log: Log, ops: map<nat, Op>) {
    forall o | o in ops :: OpFits(cfg, log, ops[o])
  }

  ghost predicate Inv(cfg: Config, s: State) {
    GoodLog(s.log) && AllFit(cfg, s.log, s.ops) && OneAuthor(s.ops) &&
    EveryEventHasAuthor(s.log, s.ops) && FactsFit(s.facts, s.ops)
  }
}
