/**
 * What each request does when nothing interferes: from any reachable state, an operation that meets no
 * failing call and runs by itself ends as one look at its stream says it must.
 */
module ServiceAlone {
  import opened Text16
  import opened Domain
  import opened EventLog
  import opened Service
  import opened ServiceInvariants
  import opened ServiceProofs
  import opened ServiceRuns
  import opened ServiceTheorems

  // ---------------------------------------------------------------- what a request means

  /** The outcome of a request and the event it adds to the log, if any. */
  datatype Settlement = Settlement(outcome: Result<Envelope>, event: Option<Event>)

  /** The event closes the stream if the schema takes it. */
  function Close(stream: seq<Event>, e: Event): Settlement
    requires LegalStream(stream) && |stream| == 1 && Closes(stream[0], e)
  {
    if Storable(e) then Settlement(Success(StateOf(stream + [e])), Some(e)) else Settlement(Failure(BadEvent), None)
  }

  /** What a request makes of a pending continuation, read in time or too late. */
  function SettlePending(stream: seq<Event>, r: Request, reading: Time, stamp: Time): Settlement
    requires !r.Create? && LegalStream(stream) && |stream| == 1 && stream[0].continuationId == r.continuationId
  {
    var id := r.continuationId;
    if reading >= stream[0].expiresAt then
      var expiry := Close(stream, WasExpired(SCHEMA_VERSION, id, 2, reading));
      if r.Inspect? || expiry.event.None? then expiry
      else Settlement(Failure(ContinuationExpired(id)), expiry.event)
    else
      match r
      case Inspect(_) => Settlement(Success(StateOf(stream)), None)
      case Resume(_, key, payload, _) => Close(stream, WasResumed(SCHEMA_VERSION, id, 2, stamp, key, payload))
      case Cancel(_, expectedVersion, reason) =>
        if expectedVersion.Some? && expectedVersion.value != 1 then
          Settlement(Failure(VersionConflict(id, expectedVersion.value, 1)), None)
        else Close(stream, WasCancelled(SCHEMA_VERSION, id, 2, reading, reason))
  }

  /** What an inspect, a resume or a cancel makes of its stream. */
  function Settle(cfg: Config, stream: seq<Event>, r: Request, reading: Time, stamp: Time): Settlement
    requires !r.Create? && LegalStream(stream) && (stream != [] ==> stream[0].continuationId == r.continuationId)
  {
    if stream == [] then Settlement(Failure(NotFound(r.continuationId)), None)
    else if r.Resume? && !TokenHashesEqual(stream[0].resumeTokenHash, cfg.hash(r.resumeToken)) then
      Settlement(Failure(TokenMismatch(r.continuationId)), None)
    else if |stream| == 2 then Settlement(RetryAnswer(cfg, stream, r), None)
    else SettlePending(stream, r, reading, stamp)
  }

  /** What the observer is told. */
  function Told(o: nat, r: Request, x: Settlement): seq<Fact> {
    if x.event.Some? then
      [Transitioned(o, x.event.value.continuationId, x.event.value.version, StatusAfter(x.event.value))]
    else if r.Resume? && x.outcome == Failure(TokenMismatch(r.continuationId)) then [TokenRejected(o, r.continuationId)]
    else []
  }

  // ---------------------------------------------------------------- one operation by itself

  predicate Calm(env: Env) { env.fault.NoFault? || env.fault.ValidatesFirst? }

  /** What one operation sees and changes. */
  datatype Solo = Solo(log: Log, op: Op, facts: seq<Fact>)

  function SoloStep(cfg: Config, o: nat, x: Solo, env: Env): Solo {
    var e := Step(cfg, x.log, o, x.op, env);
    Solo(After(x.log, e), e.op, if e.fact.Some? then x.facts + [e.fact.value] else x.facts)
  }

  function Within(s: State, o: nat, x: Solo): State { State(x.log, s.ops[o := x.op], x.facts) }

  lemma SoloApplies(cfg: Config, s: State, o: nat, x: Solo, env: Env)
    ensures Apply(cfg, Within(s, o, x), Advance(o, env)) == Within(s, o, SoloStep(cfg, o, x, env))
  {
  }

  /** A request arrives and its operation takes five steps in a row. */
  function Alone(o: nat, r: Request, a: Env, b: Env, c: Env, d: Env, e: Env): seq<Action> {
    [Begin(o, r)] + ([Advance(o, a)] + ([Advance(o, b)] + ([Advance(o, c)] + ([Advance(o, d)] + [Advance(o, e)]))))
  }

  function Begun(s: State, r: Request): Solo {
    var seen := if r.Create? then [] else Stream(s.log, r.continuationId);
    Solo(s.log, Op(r, seen, None, None, None, None, Start), s.facts)
  }

  function Two(cfg: Config, o: nat, x: Solo, a: Env, b: Env): Solo { SoloStep(cfg, o, SoloStep(cfg, o, x, a), b) }

  function Three(cfg: Config, o: nat, x: Solo, a: Env, b: Env, c: Env): Solo {
    SoloStep(cfg, o, Two(cfg, o, x, a, b), c)
  }

  function Five(cfg: Config, o: nat, x: Solo, a: Env, b: Env, c: Env, d: Env, e: Env): Solo {
    Three(cfg, o, Two(cfg, o, x, a, b), c, d, e)
  }

  lemma AloneIs(cfg: Config, s: State, o: nat, r: Request, a: Env, b: Env, c: Env, d: Env, e: Env)
    requires o !in s.ops
    ensures ApplyAll(cfg, s, Alone(o, r, a, b, c, d, e)) == Within(s, o, Five(cfg, o, Begun(s, r), a, b, c, d, e))
  {
    var x := Begun(s, r);
    var third := [Advance(o, c)] + ([Advance(o, d)] + [Advance(o, e)]);
    var second := [Advance(o, b)] + third;
    assert Apply(cfg, s, Begin(o, r)) == Within(s, o, x);
    AppliesFirst(cfg, s, Begin(o, r), [Advance(o, a)] + second);
    StepsAlone(cfg, s, o, x, a, second);
    StepsAlone(cfg, s, o, SoloStep(cfg, o, x, a), b, third);
    LastThree(cfg, s, o, Two(cfg, o, x, a, b), c, d, e);
  }

  lemma LastThree(cfg: Config, s: State, o: nat, x: Solo, c: Env, d: Env, e: Env)
    ensures ApplyAll(cfg, Within(s, o, x), [Advance(o, c)] + ([Advance(o, d)] + [Advance(o, e)])) ==
      Within(s, o, Three(cfg, o, x, c, d, e))
  {
    StepsAlone(cfg, s, o, x, c, [Advance(o, d)] + [Advance(o, e)]);
    StepsAlone(cfg, s, o, SoloStep(cfg, o, x, c), d, [Advance(o, e)]);
    assert [Advance(o, e)] == [Advance(o, e)] + [];
    StepsAlone(cfg, s, o, Two(cfg, o, x, c, d), e, []);
  }

  lemma AppliesFirst(cfg: Config, s: State, first: Action, rest: seq<Action>)
    ensures ApplyAll(cfg, s, [first] + rest) == ApplyAll(cfg, Apply(cfg, s, first), rest)
  {
    assert ([first] + rest)[1..] == rest;
  }

  lemma StepsAlone(cfg: Config, s: State, o: nat, x: Solo, env: Env, rest: seq<Action>)
    ensures ApplyAll(cfg, Within(s, o, x), [Advance(o, env)] + rest) ==
      ApplyAll(cfg, Within(s, o, SoloStep(cfg, o, x, env)), rest)
  {
    SoloApplies(cfg, s, o, x, env);
    AppliesFirst(cfg, Within(s, o, x), Advance(o, env), rest);
  }

  lemma DoneStays(cfg: Config, o: nat, x: Solo, env: Env)
    requires x.op.pc.Done?
    ensures SoloStep(cfg, o, x, env) == x
  {
  }

  /** The operation has ended: `log` and `facts` are what they were before it ended this way. */
  ghost predicate Ended(x: Solo, log: Log, facts: seq<Fact>, o: nat, r: Request, end: Settlement) {
    x.op.request == r && x.op.pc == Done(end.outcome) && x.op.committed == end.event &&
    x.log == (if end.event.None? then log else Extend(log, end.event.value.continuationId, [end.event.value])) &&
    x.facts == facts + Told(o, r, end)
  }

  lemma EndedStays(cfg: Config, o: nat, x: Solo, env: Env, log: Log, facts: seq<Fact>, r: Request, end: Settlement)
    requires Ended(x, log, facts, o, r, end)
    ensures Ended(SoloStep(cfg, o, x, env), log, facts, o, r, end)
  {
    DoneStays(cfg, o, x, env);
  }

  // ---------------------------------------------------------------- the append

  lemma OneEventAppends(log: Log, id: Id, expected: int, e: Event)
    requires |Stream(log, id)| == expected && e.continuationId == id && e.version == expected + 1
    ensures CompareAndAppend(log, id, expected, [e]) ==
      if Storable(e) then Stored(Extend(log, id, [e])) else Refused(BadEvent)
  {
    if Storable(e) {
      BatchPassesExactly(id, expected, [e]);
    } else {
      assert [e][0] == e;
    }
  }

  /** With nobody else about, an append stores its event if the schema takes it. */
  lemma AppendsAlone(log: Log, op: Op, e: Event, expected: int, env: Env, onConflict: Pc, onCommit: Pc)
    requires Calm(env) && |Stream(log, e.continuationId)| == expected && e.version == expected + 1
    ensures Append(log, op, e, expected, env, onConflict, onCommit) ==
      if Storable(e) then Effect(Some(e), op.(committed := Some(e), pc := onCommit), None)
      else Finish(op, Failure(BadEvent))
  {
    OneEventAppends(log, e.continuationId, expected, e);
  }

  /** The stream of a continuation that is pending, and its closing event. */
  ghost predicate Offers(x: Solo, r: Request, s: seq<Event>, e: Event) {
    !r.Create? && x.op.request == r && x.op.committed.None? && s == Stream(x.log, r.continuationId) &&
    GoodStream(r.continuationId, s) && |s| == 1 && Closes(s[0], e)
  }

  lemma ClosingReduces(x: Solo, r: Request, s: seq<Event>, e: Event)
    requires Offers(x, r, s, e)
    ensures e.continuationId == r.continuationId && e.version == 2 && StateOf(s).base.version == 1
    ensures LegalStream(s + [e]) && ReduceContinuation(Some(StateOf(s)), e) == Success(StateOf(s + [e]))
    ensures StateOf(s + [e]).base.continuationId == r.continuationId && StateOf(s + [e]).base.version == 2
    ensures StatusOf(StateOf(s + [e])) == StatusAfter(e)
  {
    var t := s + [e];
    assert t[0] == s[0] && t[1] == e;
  }

  /** After its append the operation waits for the observer, or has ended with a bad event. */
  function Appended(x: Solo, e: Event, pc: Pc): Solo {
    if Storable(e) then
      Solo(Extend(x.log, e.continuationId, [e]), x.op.(committed := Some(e), pc := pc), x.facts)
    else x.(op := x.op.(pc := Done(Failure(BadEvent))))
  }

  lemma TransitionAppends(cfg: Config, o: nat, x: Solo, r: Request, s: seq<Event>, e: Event, env: Env)
    requires Offers(x, r, s, e) && Calm(env) && x.op.pc == AppendTransition(StateOf(s), e)
    ensures SoloStep(cfg, o, x, env) == Appended(x, e, Observe(StateOf(s + [e])))
  {
    ClosingReduces(x, r, s, e);
    var op := x.op;
    AppendsAlone(x.log, op, e, 1, env, OnConflict(op.pc, 1), OnCommit(op.pc));
  }

  lemma ExpiryAppendsAlone(cfg: Config, o: nat, x: Solo, r: Request, s: seq<Event>, e: Event, env: Env)
    requires Offers(x, r, s, e) && Calm(env) && x.op.pc == AppendExpired(StateOf(s), e)
    ensures SoloStep(cfg, o, x, env) == Appended(x, e, ObserveExpired(StateOf(s + [e])))
  {
    ClosingReduces(x, r, s, e);
    var op := x.op;
    AppendsAlone(x.log, op, e, 1, env, OnConflict(op.pc, 1), OnCommit(op.pc));
  }

  lemma ObservesAlone(cfg: Config, o: nat, x: Solo, r: Request, s: seq<Event>, e: Event, next: Envelope, env: Env)
    requires x.op.pc == Observe(next) && x.op.request == r && x.op.committed == Some(e)
    requires next.base.continuationId == e.continuationId && next.base.version == e.version
    requires StatusOf(next) == StatusAfter(e)
    ensures SoloStep(cfg, o, x, env) ==
      Solo(x.log, x.op.(pc := Done(Success(next))), x.facts + Told(o, r, Settlement(Success(next), Some(e))))
  {
  }

  /** A transition that is offered alone: two steps to its end. */
  lemma TransitionEnds(cfg: Config, o: nat, x: Solo, r: Request, s: seq<Event>, e: Event, a: Env, b: Env)
    requires Offers(x, r, s, e) && Calm(a) && x.op.pc == AppendTransition(StateOf(s), e)
    ensures Ended(Two(cfg, o, x, a, b), x.log, x.facts, o, r, Close(s, e))
  {
    TransitionAppends(cfg, o, x, r, s, e, a);
    ClosingReduces(x, r, s, e);
    var y := Appended(x, e, Observe(StateOf(s + [e])));
    if Storable(e) {
      ObservesAlone(cfg, o, y, r, s, e, StateOf(s + [e]), b);
    } else {
      DoneStays(cfg, o, y, b);
    }
  }

  // ---------------------------------------------------------------- a pending continuation

  function ExpiryOf(r: Request, now: Time): Event
    requires !r.Create?
  {
    WasExpired(SCHEMA_VERSION, r.continuationId, 2, now)
  }

  lemma ExpiredIsSettled(cfg: Config, o: nat, x: Solo, r: Request, t: seq<Event>, env: Env)
    requires |t| == 2 && LegalStream(t) && x.op.pc == Settled(StateOf(t)) && x.op.request == r && !r.Create?
    requires t[1].WasExpired? && t[0].continuationId == r.continuationId
    ensures SoloStep(cfg, o, x, env) ==
      x.(op := x.op.(pc := Done(if r.Inspect? then Success(StateOf(t))
                                else Failure(ContinuationExpired(r.continuationId)))))
  {
  }

  /** An expiry that is offered alone: three steps to the operation's end. */
  lemma ExpiryEnds(
    cfg: Config, o: nat, x: Solo, r: Request, s: seq<Event>, now: Time, stamp: Time, a: Env, b: Env, c: Env)
    requires !r.Create? && Offers(x, r, s, ExpiryOf(r, now)) && Calm(a)
    requires x.op.pc == AppendExpired(StateOf(s), ExpiryOf(r, now)) && now >= s[0].expiresAt
    ensures Ended(Three(cfg, o, x, a, b, c), x.log, x.facts, o, r, SettlePending(s, r, now, stamp))
  {
    var e := ExpiryOf(r, now);
    ExpiryAppendsAlone(cfg, o, x, r, s, e, a);
    ClosingReduces(x, r, s, e);
    var y := Appended(x, e, ObserveExpired(StateOf(s + [e])));
    if Storable(e) {
      var told := x.facts + [Transitioned(o, r.continuationId, 2, IsExpired)];
      var z := Solo(y.log, y.op.(pc := Settled(StateOf(s + [e]))), told);
      assert SoloStep(cfg, o, y, b) == z;
      ExpiredIsSettled(cfg, o, z, r, s + [e], c);
    } else {
      DoneStays(cfg, o, y, b);
      DoneStays(cfg, o, y, c);
    }
  }

  /** The event that a request read in time offers to a pending continuation. */
  function ClosingEventOf(r: Request, reading: Time, stamp: Time): Event
    requires r.Resume? || r.Cancel?
  {
    match r
    case Resume(id, key, payload, _) => WasResumed(SCHEMA_VERSION, id, 2, stamp, key, payload)
    case Cancel(id, _, reason) => WasCancelled(SCHEMA_VERSION, id, 2, reading, reason)
  }

  /** Where a request that has read its clock in time goes next. */
  lemma InTimeStep(cfg: Config, o: nat, x: Solo, r: Request, s: seq<Event>, reading: Time, env: Env)
    requires !r.Create? && x.op.request == r && x.op.reading == Some(reading)
    requires |s| == 1 && LegalStream(s) && s[0].continuationId == r.continuationId && reading < s[0].expiresAt
    requires x.op.pc == Settled(StateOf(s))
    ensures SoloStep(cfg, o, x, env) ==
      if r.Inspect? || (r.Cancel? && r.expectedVersion.Some? && r.expectedVersion.value != 1) then
        x.(op := x.op.(pc := Done(SettlePending(s, r, reading, env.now).outcome)))
      else
        x.(op := x.op.(stamp := if r.Resume? then Some(env.now) else x.op.stamp,
                       pc := AppendTransition(StateOf(s), ClosingEventOf(r, reading, env.now))))
  {
    assert StateOf(s).base.version == 1;
    match r
    case Inspect(_) =>
    case Resume(_, _, _, _) =>
    case Cancel(_, _, _) =>
  }

  /** A request that has read its clock in time: at most three steps to its end. */
  lemma InTimeEnds(cfg: Config, o: nat, x: Solo, r: Request, s: seq<Event>, reading: Time, a: Env, b: Env, c: Env)
    requires !r.Create? && x.op.request == r && x.op.committed.None? && s == Stream(x.log, r.continuationId)
    requires GoodStream(r.continuationId, s) && |s| == 1 && reading < s[0].expiresAt && Calm(b)
    requires x.op.pc == Settled(StateOf(s)) && x.op.reading == Some(reading)
    ensures Ended(Three(cfg, o, x, a, b, c), x.log, x.facts, o, r, SettlePending(s, r, reading, a.now))
  {
    assert s[0].continuationId == r.continuationId;
    InTimeStep(cfg, o, x, r, s, reading, a);
    var y := SoloStep(cfg, o, x, a);
    if y.op.pc.Done? {
      DoneStays(cfg, o, y, b);
      DoneStays(cfg, o, y, c);
    } else {
      var e := ClosingEventOf(r, reading, a.now);
      assert SettlePending(s, r, reading, a.now) == Close(s, e);
      TransitionEnds(cfg, o, y, r, s, e, b, c);
    }
  }

  /** Having entered the expiry check of a pending continuation, three steps to the operation's end. */
  lemma EnteredEnds(cfg: Config, o: nat, x: Solo, op: Op, s: seq<Event>, now: Time, a: Env, b: Env, c: Env)
    requires !op.request.Create? && op.committed.None? && s == Stream(x.log, op.request.continuationId)
    requires GoodStream(op.request.continuationId, s) && |s| == 1 && Calm(a) && Calm(b)
    requires x.op == EnterExpiry(op, StateOf(s), now).op
    ensures Ended(Three(cfg, o, x, a, b, c), x.log, x.facts, o, op.request, SettlePending(s, op.request, now, a.now))
  {
    assert s[0].continuationId == op.request.continuationId;
    if now < s[0].expiresAt {
      InTimeEnds(cfg, o, x, op.request, s, now, a, b, c);
    } else {
      ExpiryEnds(cfg, o, x, op.request, s, now, a.now, a, b, c);
    }
  }

  // ---------------------------------------------------------------- every request, from its arrival

  ghost predicate Arrived(x: Solo, r: Request, s: seq<Event>) {
    !r.Create? && x.op.request == r && x.op.committed.None? && s == Stream(x.log, r.continuationId) &&
    GoodStream(r.continuationId, s)
  }

  lemma StartAlone(cfg: Config, o: nat, x: Solo, r: Request, s: seq<Event>, env: Env)
    requires Arrived(x, r, s) && x.op.pc.Start? && Calm(env)
    ensures SoloStep(cfg, o, x, env) ==
      if s == [] then x.(op := x.op.(pc := Done(Failure(NotFound(r.continuationId)))))
      else if r.Resume? then x.(op := x.op.(pc := CheckToken(StateOf(s), s[0].resumeTokenHash)))
      else if r.Cancel? && |s| == 2 && s[1].WasCancelled? then x.(op := x.op.(pc := Done(RetryAnswer(cfg, s, r))))
      else x.(op := EnterExpiry(x.op, StateOf(s), env.now).op)
  {
    ReplayOfStream(r.continuationId, s);
  }

  lemma CheckAlone(cfg: Config, o: nat, x: Solo, r: Request, s: seq<Event>, env: Env)
    requires Arrived(x, r, s) && r.Resume? && s != [] && Calm(env)
    requires x.op.pc == CheckToken(StateOf(s), s[0].resumeTokenHash)
    ensures SoloStep(cfg, o, x, env) ==
      if !TokenHashesEqual(s[0].resumeTokenHash, cfg.hash(r.resumeToken)) then x.(op := x.op.(pc := RejectToken))
      else if |s| == 2 && s[1].WasResumed? then x.(op := x.op.(pc := Done(RetryAnswer(cfg, s, r))))
      else x.(op := EnterExpiry(x.op, StateOf(s), env.now).op)
  {
  }

  /** A closed continuation is answered from its stored events, once its state is settled. */
  lemma ClosedEnds(cfg: Config, o: nat, x: Solo, op: Op, s: seq<Event>, now: Time, env: Env)
    requires Arrived(x, op.request, s) && |s| == 2 && op.committed.None?
    requires x.op == EnterExpiry(op, StateOf(s), now).op
    requires op.request.Resume? ==>
      !s[1].WasResumed? && TokenHashesEqual(s[0].resumeTokenHash, cfg.hash(op.request.resumeToken))
    ensures SoloStep(cfg, o, x, env) == x.(op := x.op.(pc := Done(RetryAnswer(cfg, s, op.request))))
  {
    assert s[0].continuationId == op.request.continuationId;
    match op.request
    case Inspect(_) =>
    case Resume(_, _, _, _) =>
    case Cancel(_, _, _) =>
  }

  lemma TwoMore(cfg: Config, o: nat, x: Solo, a: Env, b: Env, log: Log, facts: seq<Fact>, r: Request, end: Settlement)
    requires Ended(x, log, facts, o, r, end)
    ensures Ended(Two(cfg, o, x, a, b), log, facts, o, r, end)
  {
    EndedStays(cfg, o, x, a, log, facts, r, end);
    EndedStays(cfg, o, SoloStep(cfg, o, x, a), b, log, facts, r, end);
  }

  lemma UnmatchedEnds(cfg: Config, o: nat, x: Solo, r: Request, env: Env)
    requires r.Resume? && x.op.request == r && x.op.pc.RejectToken? && x.op.committed.None?
    ensures Ended(SoloStep(cfg, o, x, env), x.log, x.facts, o, r,
                  Settlement(Failure(TokenMismatch(r.continuationId)), None))
  {
  }

  /** A resume past its load: four steps to its end. */
  lemma CheckedEnds(cfg: Config, o: nat, x: Solo, r: Request, s: seq<Event>, a: Env, b: Env, c: Env, d: Env)
    requires Arrived(x, r, s) && r.Resume? && s != [] && Calm(a) && Calm(b) && Calm(c)
    requires x.op.pc == CheckToken(StateOf(s), s[0].resumeTokenHash)
    ensures Ended(Three(cfg, o, SoloStep(cfg, o, x, a), b, c, d), x.log, x.facts, o, r,
                  Settle(cfg, s, r, a.now, b.now))
  {
    CheckAlone(cfg, o, x, r, s, a);
    var y := SoloStep(cfg, o, x, a);
    var end := Settle(cfg, s, r, a.now, b.now);
    if y.op.pc.RejectToken? {
      UnmatchedEnds(cfg, o, y, r, b);
      TwoMore(cfg, o, SoloStep(cfg, o, y, b), c, d, x.log, x.facts, r, end);
    } else if |s| == 2 {
      if s[1].WasResumed? {
        EndedStays(cfg, o, y, b, x.log, x.facts, r, end);
      } else {
        ClosedEnds(cfg, o, y, x.op, s, a.now, b);
      }
      TwoMore(cfg, o, SoloStep(cfg, o, y, b), c, d, x.log, x.facts, r, end);
    } else {
      EnteredEnds(cfg, o, y, x.op, s, a.now, b, c, d);
    }
  }

  /** An inspect or a cancel, from its arrival: four steps to its end. */
  lemma LookedUpEnds(cfg: Config, o: nat, x: Solo, r: Request, s: seq<Event>, a: Env, b: Env, c: Env, d: Env)
    requires Arrived(x, r, s) && !r.Resume? && x.op.pc.Start? && Calm(a) && Calm(b) && Calm(c)
    ensures Ended(Three(cfg, o, SoloStep(cfg, o, x, a), b, c, d), x.log, x.facts, o, r,
                  Settle(cfg, s, r, a.now, b.now))
  {
    StartAlone(cfg, o, x, r, s, a);
    var y := SoloStep(cfg, o, x, a);
    var end := Settle(cfg, s, r, a.now, b.now);
    if s == [] || (r.Cancel? && |s| == 2 && s[1].WasCancelled?) {
      EndedStays(cfg, o, y, b, x.log, x.facts, r, end);
      TwoMore(cfg, o, SoloStep(cfg, o, y, b), c, d, x.log, x.facts, r, end);
    } else if |s| == 2 {
      ClosedEnds(cfg, o, y, x.op, s, a.now, b);
      TwoMore(cfg, o, SoloStep(cfg, o, y, b), c, d, x.log, x.facts, r, end);
    } else {
      EnteredEnds(cfg, o, y, x.op, s, a.now, b, c, d);
    }
  }

  /** An inspect, a resume or a cancel, from its arrival: five steps to its end. */
  lemma RequestEnds(cfg: Config, o: nat, x: Solo, r: Request, s: seq<Event>, a: Env, b: Env, c: Env, d: Env, e: Env)
    requires Arrived(x, r, s) && x.op.pc.Start? && Calm(a) && Calm(b) && Calm(c) && Calm(d)
    ensures Ended(Five(cfg, o, x, a, b, c, d, e), x.log, x.facts, o, r,
                  if r.Resume? then Settle(cfg, s, r, b.now, c.now) else Settle(cfg, s, r, a.now, b.now))
  {
    var y := SoloStep(cfg, o, x, a);
    if !r.Resume? {
      LookedUpEnds(cfg, o, x, r, s, a, b, c, d);
      EndedStays(cfg, o, Three(cfg, o, y, b, c, d), e, x.log, x.facts, r, Settle(cfg, s, r, a.now, b.now));
    } else {
      StartAlone(cfg, o, x, r, s, a);
      if s == [] {
        var end := Settle(cfg, s, r, b.now, c.now);
        TwoMore(cfg, o, y, b, c, x.log, x.facts, r, end);
        TwoMore(cfg, o, Two(cfg, o, y, b, c), d, e, x.log, x.facts, r, end);
      } else {
        CheckedEnds(cfg, o, y, r, s, b, c, d, e);
      }
    }
  }

  /** The clock reading of an operation by itself that decides expiry. */
  function ReadingOf(r: Request, a: Env, b: Env): Time { if r.Resume? then b.now else a.now }

  /** The outcome of one operation in the whole state, everything else left as it was. */
  ghost predicate EndsAs(s: State, n: State, o: nat, r: Request, end: Settlement) {
    o in n.ops && n.ops == s.ops[o := n.ops[o]] &&
    n.ops[o].request == r && n.ops[o].pc == Done(end.outcome) && n.ops[o].committed == end.event &&
    n.log == (if end.event.None? then s.log
              else Extend(s.log, end.event.value.continuationId, [end.event.value])) &&
    n.facts == s.facts + Told(o, r, end)
  }

  lemma StreamOfRun(cfg: Config, actions: seq<Action>, id: Id)
    ensures GoodStream(id, Stream(Run(cfg, actions).log, id))
  {
    RunKeepsInv(cfg, actions);
  }

  lemma RequestEndsAs(cfg: Config, s: State, o: nat, r: Request, a: Env, b: Env, c: Env, d: Env, e: Env)
    requires o !in s.ops && !r.Create? && Calm(a) && Calm(b) && Calm(c) && Calm(d)
    requires GoodStream(r.continuationId, Stream(s.log, r.continuationId))
    ensures EndsAs(s, ApplyAll(cfg, s, Alone(o, r, a, b, c, d, e)), o, r,
                   Settle(cfg, Stream(s.log, r.continuationId), r, ReadingOf(r, a, b), c.now))
  {
    AloneIs(cfg, s, o, r, a, b, c, d, e);
    RequestEnds(cfg, o, Begun(s, r), r, Stream(s.log, r.continuationId), a, b, c, d, e);
  }

  /**
   * From every reachable state, an inspect, a resume or a cancel that is left alone, with no call that fails,
   * ends within five steps just as its stream, its clock readings and its request settle it: with that
   * outcome, that one event stored if any, that one announcement, and nothing else changed.
   */
  lemma LeftAlone(cfg: Config, actions: seq<Action>, o: nat, r: Request, a: Env, b: Env, c: Env, d: Env, e: Env)
    requires o !in Run(cfg, actions).ops && !r.Create? && Calm(a) && Calm(b) && Calm(c) && Calm(d)
    ensures var s := Run(cfg, actions);
      var stream := Stream(s.log, r.continuationId);
      LegalStream(stream) && (stream != [] ==> stream[0].continuationId == r.continuationId) &&
      EndsAs(s, Run(cfg, actions + Alone(o, r, a, b, c, d, e)), o, r,
             Settle(cfg, stream, r, ReadingOf(r, a, b), c.now))
  {
    StreamOfRun(cfg, actions, r.continuationId);
    RunGoesOn(cfg, actions, Alone(o, r, a, b, c, d, e));
    RequestEndsAs(cfg, Run(cfg, actions), o, r, a, b, c, d, e);
  }

  /**
   * In particular: a cancel of a pending continuation that reads its clock before the deadline, with a fitting
   * expectedVersion or none, stores one cancellation with its reason, stamped with its reading, and returns the
   * replay of the new stream.
   */
  lemma CancelCancels(cfg: Config, actions: seq<Action>, o: nat, r: Request, a: Env, b: Env, c: Env, d: Env, e: Env)
    requires o !in Run(cfg, actions).ops && r.Cancel? && Calm(a) && Calm(b) && Calm(c) && Calm(d)
    requires r.expectedVersion.None? || r.expectedVersion.value == 1
    requires var stream := Stream(Run(cfg, actions).log, r.continuationId);
      |stream| == 1 && stream[0].WasCreated? && a.now < stream[0].expiresAt && IsInstant(a.now)
    ensures var stream := Stream(Run(cfg, actions).log, r.continuationId);
      var n := Run(cfg, actions + Alone(o, r, a, b, c, d, e));
      var cancelled := stream + [WasCancelled(SCHEMA_VERSION, r.continuationId, 2, a.now, r.reason)];
      Stream(n.log, r.continuationId) == cancelled &&
      (forall id | id != r.continuationId :: Stream(n.log, id) == Stream(Run(cfg, actions).log, id)) &&
      o in n.ops && n.ops[o].pc.Done? && n.ops[o].pc.outcome.Success? &&
      ReplayContinuation(cancelled) == Success(Some(n.ops[o].pc.outcome.value))
  {
    LeftAlone(cfg, actions, o, r, a, b, c, d, e);
    StreamOfRun(cfg, actions, r.continuationId);
    var stream := Stream(Run(cfg, actions).log, r.continuationId);
    var cancelled := stream + [WasCancelled(SCHEMA_VERSION, r.continuationId, 2, a.now, r.reason)];
    assert stream[0].continuationId == r.continuationId && Storable(stream[0]);
    assert Storable(cancelled[1]);
    ReplayAcceptsLegalStreams(cancelled);
  }

  // ---------------------------------------------------------------- create

  /** The event that a create offers: what was asked for, and readings and generated texts for the rest. */
  function CreationOf(
    cfg: Config, r: Request, reading: Time, freshId: Text, freshCorrelationId: Text, token: Text): Event
    requires r.Create?
  {
    WasCreated(SCHEMA_VERSION, if r.id.Some? then r.id.value else freshId, 1, reading,
               if r.correlationId.Some? then r.correlationId.value else freshCorrelationId,
               if r.expiresAt.Some? then r.expiresAt.value else reading + cfg.tokenTtl,
               r.payload, r.metadata, cfg.hash(token))
  }

  /** What a create makes of the stream it aims at; a store may look at the batch before it looks at the stream. */
  function SettleCreate(stream: seq<Event>, e: Event, validatesFirst: bool): Settlement
    requires Opens(e)
  {
    if e.expiresAt <= e.occurredAt then Settlement(Failure(BadExpiry), None)
    else if !Storable(e) && (stream == [] || validatesFirst) then Settlement(Failure(BadEvent), None)
    else if stream != [] then Settlement(Failure(VersionConflict(e.continuationId, 0, |stream|)), None)
    else Settlement(Success(StateOf([e])), Some(e))
  }

  lemma CreateStarts(cfg: Config, o: nat, x: Solo, r: Request, a: Env, b: Env)
    requires r.Create? && x.op.request == r && x.op.pc.Start? && Calm(b)
    ensures var e := CreationOf(cfg, r, a.now, a.freshId, a.freshCorrelationId, b.issuedToken);
      Two(cfg, o, x, a, b) ==
        if e.expiresAt <= a.now then x.(op := x.op.(reading := Some(a.now), pc := Done(Failure(BadExpiry))))
        else x.(op := x.op.(reading := Some(a.now), token := Some(b.issuedToken), pc := AppendCreated(e)))
  {
    var e := CreationOf(cfg, r, a.now, a.freshId, a.freshCorrelationId, b.issuedToken);
    var timed := x.op.(reading := Some(a.now));
    if e.expiresAt > a.now {
      assert SoloStep(cfg, o, x, a) ==
        x.(op := timed.(pc := IssueToken(a.now, e.continuationId, e.correlationId, e.expiresAt)));
    } else {
      assert SoloStep(cfg, o, x, a) == x.(op := timed.(pc := Done(Failure(BadExpiry))));
    }
  }

  lemma CreateAppendsAlone(cfg: Config, o: nat, x: Solo, e: Event, env: Env)
    requires x.op.pc == AppendCreated(e) && Opens(e) && Calm(env)
    ensures var stream := Stream(x.log, e.continuationId);
      SoloStep(cfg, o, x, env) ==
        if stream == [] || (!Storable(e) && env.fault.ValidatesFirst?) then Appended(x, e, Observe(StateOf([e])))
        else x.(op := x.op.(pc := Done(Failure(VersionConflict(e.continuationId, 0, |stream|)))))
  {
    var stream := Stream(x.log, e.continuationId);
    assert ReduceContinuation(None, e) == Success(StateOf([e]));
    if stream == [] {
      AppendsAlone(x.log, x.op, e, 0, env, OnConflict(x.op.pc, 0), OnCommit(x.op.pc));
    }
  }

  lemma CreateAppendEnds(cfg: Config, o: nat, x: Solo, r: Request, e: Event, a: Env, b: Env, c: Env)
    requires r.Create? && x.op.request == r && x.op.committed.None? && Calm(a)
    requires x.op.pc == AppendCreated(e) && Opens(e) && e.occurredAt < e.expiresAt
    ensures var stream := Stream(x.log, e.continuationId);
      var n := Three(cfg, o, x, a, b, c);
      Ended(n, x.log, x.facts, o, r, SettleCreate(stream, e, a.fault.ValidatesFirst?)) && n.op.token == x.op.token
  {
    var stream := Stream(x.log, e.continuationId);
    CreateAppendsAlone(cfg, o, x, e, a);
    var y := SoloStep(cfg, o, x, a);
    if stream == [] && Storable(e) {
      ObservesAlone(cfg, o, y, r, stream, e, StateOf([e]), b);
    } else {
      DoneStays(cfg, o, y, b);
    }
    DoneStays(cfg, o, Two(cfg, o, x, a, b), c);
  }

  lemma CreateEnds(cfg: Config, o: nat, x: Solo, r: Request, a: Env, b: Env, c: Env, d: Env, e: Env)
    requires r.Create? && x.op.request == r && x.op.committed.None? && x.op.pc.Start? && Calm(b) && Calm(c)
    ensures var created := CreationOf(cfg, r, a.now, a.freshId, a.freshCorrelationId, b.issuedToken);
      var end := SettleCreate(Stream(x.log, created.continuationId), created, c.fault.ValidatesFirst?);
      var n := Five(cfg, o, x, a, b, c, d, e);
      Ended(n, x.log, x.facts, o, r, end) && (end.outcome.Success? ==> n.op.token == Some(b.issuedToken))
  {
    CreateStarts(cfg, o, x, r, a, b);
    var created := CreationOf(cfg, r, a.now, a.freshId, a.freshCorrelationId, b.issuedToken);
    var y := Two(cfg, o, x, a, b);
    if y.op.pc.Done? {
      DoneStays(cfg, o, y, c);
      DoneStays(cfg, o, y, d);
      DoneStays(cfg, o, y, e);
    } else {
      CreateAppendEnds(cfg, o, y, r, created, c, d, e);
    }
  }

  lemma CreateEndsAs(cfg: Config, s: State, o: nat, r: Request, a: Env, b: Env, c: Env, d: Env, e: Env)
    requires o !in s.ops && r.Create? && Calm(b) && Calm(c)
    ensures var created := CreationOf(cfg, r, a.now, a.freshId, a.freshCorrelationId, b.issuedToken);
      var end := SettleCreate(Stream(s.log, created.continuationId), created, c.fault.ValidatesFirst?);
      var n := ApplyAll(cfg, s, Alone(o, r, a, b, c, d, e));
      EndsAs(s, n, o, r, end) && (end.outcome.Success? ==> n.ops[o].token == Some(b.issuedToken))
  {
    AloneIs(cfg, s, o, r, a, b, c, d, e);
    CreateEnds(cfg, o, Begun(s, r), r, a, b, c, d, e);
  }

  /**
   * From every reachable state, a create that is left alone ends just as the stream it aims at and its reading
   * settle it. If its deadline is after its reading, its id is free and its event fits the schema, it stores
   * exactly that event, with the asked or defaulted id, correlation and deadline, and returns its envelope and
   * the token that was issued.
   */
  lemma CreateLeftAlone(cfg: Config, actions: seq<Action>, o: nat, r: Request, a: Env, b: Env, c: Env, d: Env, e: Env)
    requires o !in Run(cfg, actions).ops && r.Create? && Calm(b) && Calm(c)
    ensures var s, n := Run(cfg, actions), Run(cfg, actions + Alone(o, r, a, b, c, d, e));
      var created := CreationOf(cfg, r, a.now, a.freshId, a.freshCorrelationId, b.issuedToken);
      var stream := Stream(s.log, created.continuationId);
      EndsAs(s, n, o, r, SettleCreate(stream, created, c.fault.ValidatesFirst?)) &&
      (a.now < created.expiresAt && stream == [] && Storable(created) ==>
        Stream(n.log, created.continuationId) == [created] && n.ops[o].pc == Done(Success(StateOf([created]))) &&
        n.ops[o].token == Some(b.issuedToken))
  {
    RunGoesOn(cfg, actions, Alone(o, r, a, b, c, d, e));
    CreateEndsAs(cfg, Run(cfg, actions), o, r, a, b, c, d, e);
  }

  function ResumptionOf(r: Request, stamp: Time): Event
    requires r.Resume?
  {
    WasResumed(SCHEMA_VERSION, r.continuationId, 2, stamp, r.idempotencyKey, r.resumePayload)
  }

  lemma FittingResumeSettles(
    cfg: Config, stream: seq<Event>, created: Envelope, r: Request, reading: Time, stamp: Time)
    requires r.Resume? && GoodStream(r.continuationId, stream) && |stream| == 1 && IsPendingOf(stream, created)
    requires stream[0].resumeTokenHash == cfg.hash(r.resumeToken)
    requires reading < created.base.expiresAt && IsInstant(stamp) && r.idempotencyKey != []
    ensures Settle(cfg, stream, r, reading, stamp) ==
      Settlement(Success(Resumed(created.base.(version := 2), stamp, r.idempotencyKey, r.resumePayload)),
                 Some(ResumptionOf(r, stamp)))
  {
    assert Storable(stream[0]) && stream[..1] == stream;
    var t := stream + [ResumptionOf(r, stamp)];
    assert t[0] == stream[0] && t[1] == ResumptionOf(r, stamp);
  }

  /**
   * The token that a create returns resumes its continuation: as long as that is pending, whatever has happened
   * since, a resume with this token that is left alone and reads its clock before the deadline stores its payload
   * and returns the envelope that the create returned, now resumed.
   */
  lemma CreatedTokenResumes(
    cfg: Config, actions: seq<Action>, creator: nat, created: Envelope, o: nat, r: Request,
    a: Env, b: Env, c: Env, d: Env, e: Env)
    requires creator in Run(cfg, actions).ops && Run(cfg, actions).ops[creator].request.Create?
    requires Run(cfg, actions).ops[creator].pc == Done(Success(created))
    requires o !in Run(cfg, actions).ops && Calm(a) && Calm(b) && Calm(c) && Calm(d)
    requires r.Resume? && r.continuationId == created.base.continuationId
    requires Run(cfg, actions).ops[creator].token == Some(r.resumeToken)
    requires |Stream(Run(cfg, actions).log, r.continuationId)| == 1
    requires b.now < created.base.expiresAt && IsInstant(c.now) && r.idempotencyKey != []
    ensures var n := Run(cfg, actions + Alone(o, r, a, b, c, d, e));
      Stream(n.log, r.continuationId) ==
        Stream(Run(cfg, actions).log, r.continuationId) + [ResumptionOf(r, c.now)] &&
      o in n.ops && n.ops[o].pc ==
        Done(Success(Resumed(created.base.(version := 2), c.now, r.idempotencyKey, r.resumePayload)))
  {
    SuccessfulCreateOwnsItsStream(cfg, actions, creator, created);
    LeftAlone(cfg, actions, o, r, a, b, c, d, e);
    StreamOfRun(cfg, actions, r.continuationId);
    FittingResumeSettles(cfg, Stream(Run(cfg, actions).log, r.continuationId), created, r, b.now, c.now);
  }
}
