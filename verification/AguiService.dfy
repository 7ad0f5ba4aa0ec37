/**
 * AG-UI batches executed by the continuation service: a batch may be cut short by crashes at any point,
 * and validating and executing it again finishes it without doing anything twice.
 */
module AguiService {
  import opened Domain
  import opened EventLog
  import opened AguiReceipt
  import opened Protocol
  import opened AguiIssue
  import opened AguiResume
  import opened AguiTheorems
  import S = Service
  import I = ServiceInvariants
  import R = ServiceRuns
  import T = ServiceTheorems

  /** The service request that carries out a command; the token comes from the host. */
  ghost predicate Executes(r: S.Request, command: Command) {
    match command
    case ResumeCommand(id, key, payload) =>
      r.Resume? && r.continuationId == id && r.idempotencyKey == key && r.resumePayload == payload
    case CancelCommand(id, version) =>
      r.Cancel? && r.continuationId == id && r.expectedVersion == Some(version) && r.reason == Some(CancelReason())
  }

  /** The cohort is what the log says about its members. */
  ghost predicate Loaded(log: Log, cohort: seq<Envelope>) {
    forall k | 0 <= k < |cohort| ::
      ReplayContinuation(Stream(log, cohort[k].base.continuationId)) == Success(Some(cohort[k]))
  }

  /** Whatever closed a continuation of the batch that was open before was an inspection or its own command. */
  ghost predicate OnlyTheBatchActs(before: Log, ops: map<nat, S.Op>, commands: seq<Command>) {
    forall o, k | o in ops && 0 <= k < |commands| && ops[o].committed.Some? ::
      ActsForBatch(before, ops[o].request, commands[k])
  }

  ghost predicate ActsForBatch(before: Log, r: S.Request, command: Command) {
    r.Create? || r.continuationId != command.continuationId || |Stream(before, r.continuationId)| != 1 ||
    r.Inspect? || Executes(r, command)
  }

  // ---------------------------------------------------------------- what a run does to a cohort

  lemma OneMoreEvent(s: seq<Event>, first: Envelope, last: Envelope)
    requires |s| == 2 && ReplayContinuation(s[..1]) == Success(Some(first))
    requires ReplayContinuation(s) == Success(Some(last))
    ensures Reaches(first, last)
  {
    assert s[..|s| - 1] == s[..1];
    assert ReduceContinuation(Some(first), s[1]) == Success(last);
    assert FoldsTo(last, [s[1]][1..], last);
    assert FoldsTo(first, [s[1]], last);
  }

  /** Whatever happens between two loads, the later cohort is reached from the earlier one by the reducer. */
  lemma RunsReach(
    cfg: S.Config, first: seq<S.Action>, more: seq<S.Action>, current: seq<Envelope>, later: seq<Envelope>)
    requires Loaded(S.Run(cfg, first).log, current) && Loaded(S.Run(cfg, first + more).log, later)
    requires CohortIds(current) == CohortIds(later)
    ensures AllReach(current, later)
  {
    T.LogOnlyGrows(cfg, first, more);
    forall k | 0 <= k < |current| ensures Reaches(current[k], later[k]) {
      var id := current[k].base.continuationId;
      assert CohortIds(current)[k] == CohortIds(later)[k];
      var s, t := Stream(S.Run(cfg, first).log, id), Stream(S.Run(cfg, first + more).log, id);
      ReplayAcceptsLegalStreams(s);
      ReplayAcceptsLegalStreams(t);
      if |s| == |t| {
        assert s == t;
        assert FoldsTo(current[k], [], later[k]);
      } else {
        assert t[..1] == s;
        OneMoreEvent(t, current[k], later[k]);
      }
    }
  }

  /** The operation that closed a stream is one whose request asked for just that, or an expiry. */
  lemma CloserWasAsked(cfg: S.Config, actions: seq<S.Action>, id: Id) returns (o: nat)
    requires |Stream(S.Run(cfg, actions).log, id)| == 2
    ensures var s := S.Run(cfg, actions);
      var e := Stream(s.log, id)[1];
      o in s.ops && s.ops[o].committed.Some? && !s.ops[o].request.Create? &&
      s.ops[o].request.continuationId == id && I.MayOffer(cfg, s.ops[o], Stream(s.log, id), e)
  {
    R.RunKeepsInv(cfg, actions);
    var s := S.Run(cfg, actions);
    var stream := Stream(s.log, id);
    assert I.GoodStream(id, stream);
    assert I.HasAuthor(stream[1], s.ops);
    o :| o in s.ops && s.ops[o].committed == Some(stream[1]);
    assert I.OpFits(cfg, s.log, s.ops[o]);
    assert stream[1].continuationId == id;
  }

  /** A continuation that closed while only its own command was at work was settled by it, or expired. */
  lemma ClosedByItsCommand(
    cfg: S.Config, first: seq<S.Action>, more: seq<S.Action>, e: Envelope, command: Command)
    requires var s := S.Run(cfg, first + more);
      ReplayContinuation(Stream(s.log, command.continuationId)) == Success(Some(e)) &&
      forall o | o in s.ops && s.ops[o].committed.Some? ::
        ActsForBatch(S.Run(cfg, first).log, s.ops[o].request, command)
    requires |Stream(S.Run(cfg, first).log, command.continuationId)| == 1 && !e.Pending?
    ensures e.Expired? || Settled(e, command)
  {
    var s := S.Run(cfg, first + more);
    var stream := Stream(s.log, command.continuationId);
    ReplayAcceptsLegalStreams(stream);
    var o := CloserWasAsked(cfg, first + more, command.continuationId);
    assert ActsForBatch(S.Run(cfg, first).log, s.ops[o].request, command);
    AskedMeansSettled(cfg, s.ops[o], stream, command);
  }

  lemma AskedMeansSettled(cfg: S.Config, op: S.Op, s: seq<Event>, command: Command)
    requires !op.request.Create? && |s| == 2 && LegalStream(s) && I.MayOffer(cfg, op, s, s[1])
    requires op.request.Inspect? || Executes(op.request, command)
    ensures StateOf(s).Expired? || Settled(StateOf(s), command)
  {
  }

  // ---------------------------------------------------------------- the composed guarantee

  ghost predicate NoneExpired(current: seq<Envelope>, later: seq<Envelope>)
    requires |current| == |later|
  {
    forall k | 0 <= k < |later| :: later[k].Expired? ==> current[k].Expired?
  }

  /**
   * A batch accepted against one load may be carried out in part, in any order, by operations that crash
   * or lose their answers, among any other traffic that does not itself close a member: requests that were
   * refused, whoever sent them, do not matter. Validating the same input against the next load, with its
   * pending members unexpired, returns the same commands exactly if no member expired, and none otherwise.
   */
  lemma BatchIsCrashSafe(
    cfg: S.Config, first: seq<S.Action>, more: seq<S.Action>, c: Codec, input: RunInput, receipt: Receipt,
    current: seq<Envelope>, now: Time, policy: Option<Policy>, later: seq<Envelope>, laterNow: Time)
    requires Loaded(S.Run(cfg, first).log, current) && Loaded(S.Run(cfg, first + more).log, later)
    requires CohortIds(current) == CohortIds(later)
    requires Validate(c, true, Some(input), Some(receipt), current, Some(now), policy).Commands?
    requires OnlyTheBatchActs(S.Run(cfg, first).log, S.Run(cfg, first + more).ops,
      Validate(c, true, Some(input), Some(receipt), current, Some(now), policy).commands)
    requires Unexpired(later, laterNow)
    ensures |current| == |later|
    ensures var batch := Validate(c, true, Some(input), Some(receipt), current, Some(now), policy);
      var again := Validate(c, true, Some(input), Some(receipt), later, Some(laterNow), policy);
      if NoneExpired(current, later) then again == batch else again.Rejected?
  {
    var commands := Validate(c, true, Some(input), Some(receipt), current, Some(now), policy).commands;
    assert |CohortIds(current)| == |current| && |CohortIds(later)| == |later|;
    RunsReach(cfg, first, more, current, later);
    RepetitionReturnsTheBatch(c, input, receipt, current, now, policy, later, laterNow);
    CurrentIsSettled(c, input, receipt, current, now, policy);
    if NoneExpired(current, later) {
      AllAreSettled(cfg, first, more, current, later, commands);
    } else {
      var k :| 0 <= k < |later| && later[k].Expired? && !current[k].Expired?;
      var m := CommandOf(c, input, receipt, current, now, policy, k);
      assert CohortIds(later)[k] == CohortIds(current)[k];
      assert !Settled(later[k], commands[m]);
    }
  }

  lemma AllAreSettled(
    cfg: S.Config, first: seq<S.Action>, more: seq<S.Action>, current: seq<Envelope>, later: seq<Envelope>,
    commands: seq<Command>)
    requires Loaded(S.Run(cfg, first).log, current) && Loaded(S.Run(cfg, first + more).log, later)
    requires CohortIds(current) == CohortIds(later) && |current| == |later| && NoneExpired(current, later)
    requires OnlyTheBatchActs(S.Run(cfg, first).log, S.Run(cfg, first + more).ops, commands)
    requires SettledByBatch(current, commands)
    ensures SettledByBatch(later, commands)
  {
    forall i, k | 0 <= i < |later| && 0 <= k < |commands| &&
                  later[i].base.continuationId == commands[k].continuationId && !later[i].Pending?
      ensures Settled(later[i], commands[k])
    {
      assert CohortIds(current)[i] == CohortIds(later)[i];
      MemberIsSettled(cfg, first, more, current[i], later[i], commands[k]);
    }
  }

  /** Every member of an accepted cohort has a command addressed to it. */
  lemma CommandOf(
    c: Codec, input: RunInput, receipt: Receipt, current: seq<Envelope>, now: Time, policy: Option<Policy>, k: nat)
    returns (m: nat)
    requires Validate(c, true, Some(input), Some(receipt), current, Some(now), policy).Commands? && k < |current|
    ensures var commands := Validate(c, true, Some(input), Some(receipt), current, Some(now), policy).commands;
      m < |commands| && commands[m].continuationId == current[k].base.continuationId
  {
    AcceptedExactly(c, true, Some(input), Some(receipt), current, Some(now), policy);
    OneCommandPerInterrupt(c, true, Some(input), Some(receipt), current, Some(now), policy);
    m := PlaceOf(IssuedIds(receipt.interrupts), CohortIds(current), k);
    var j := PlaceOf(EntryIds(input.resume.value), IssuedIds(receipt.interrupts), m);
    CommandAddresses(Context(c, receipt.threadId, now, policy), receipt.interrupts[m], input.resume.value[j]);
  }

  /** At acceptance, every member that was not pending had already been settled as the batch asks. */
  lemma CurrentIsSettled(
    c: Codec, input: RunInput, receipt: Receipt, current: seq<Envelope>, now: Time, policy: Option<Policy>)
    requires Validate(c, true, Some(input), Some(receipt), current, Some(now), policy).Commands?
    ensures SettledByBatch(current, Validate(c, true, Some(input), Some(receipt), current, Some(now), policy).commands)
  {
    AcceptedExactly(c, true, Some(input), Some(receipt), current, Some(now), policy);
    forall k | 0 <= k < |current| ensures Reaches(current[k], current[k]) {
      assert FoldsTo(current[k], [], current[k]);
    }
    forall i | 0 <= i < |current| && current[i].Pending? ensures now < current[i].base.expiresAt {
      PendingIsUnexpired(Context(c, receipt.threadId, now, policy), receipt, current, input.resume.value, i);
    }
    RepetitionReturnsTheBatch(c, input, receipt, current, now, policy, current, now);
  }

  lemma PendingIsUnexpired(x: Context, receipt: Receipt, current: seq<Envelope>, entries: seq<Entry>, i: nat)
    requires PairsOff(x.codec, receipt, current, entries) && AllAdmissible(x, current, entries)
    requires i < |current| && current[i].Pending?
    ensures x.now < current[i].base.expiresAt
  {
    var j := PlaceOf(EntryIds(entries), CohortIds(current), i);
    assert Admissible(x, current[i], entries[j]);
  }

  lemma MemberIsSettled(
    cfg: S.Config, first: seq<S.Action>, more: seq<S.Action>, before: Envelope, after: Envelope, command: Command)
    requires var id := command.continuationId;
      before.base.continuationId == after.base.continuationId == id && !after.Pending? &&
      ReplayContinuation(Stream(S.Run(cfg, first).log, id)) == Success(Some(before)) &&
      ReplayContinuation(Stream(S.Run(cfg, first + more).log, id)) == Success(Some(after))
    requires forall o | o in S.Run(cfg, first + more).ops && S.Run(cfg, first + more).ops[o].committed.Some? ::
      ActsForBatch(S.Run(cfg, first).log, S.Run(cfg, first + more).ops[o].request, command)
    requires !before.Pending? ==> Settled(before, command)
    requires after.Expired? ==> before.Expired?
    ensures Settled(after, command)
  {
    var s := Stream(S.Run(cfg, first).log, command.continuationId);
    ReplayAcceptsLegalStreams(s);
    if |s| == 1 {
      ClosedByItsCommand(cfg, first, more, after, command);
    } else {
      T.LogOnlyGrows(cfg, first, more);
      assert Stream(S.Run(cfg, first + more).log, command.continuationId) == s;
    }
  }

  /** A settled member sends its command home with the envelope that is stored. */
  lemma SettledIsReturned(e: Envelope, command: Command)
    requires Settled(e, command)
    ensures match command
      case ResumeCommand(id, key, payload) => S.ResolveCompletedResume(e, id, key, payload) == S.Completed(e)
      case CancelCommand(id, version) =>
        S.ResolveCompletedCancellation(e, id, Some(version), Some(CancelReason())) == Success(e)
  {
  }

  /**
   * Executing a command again after it has taken effect, among any other operations and in any later state,
   * commits nothing and returns the stored envelope, unless a call of its own failed.
   */
  lemma ReexecutionAppendsNothing(
    cfg: S.Config, first: seq<S.Action>, more: seq<S.Action>, o: nat, e: Envelope, command: Command)
    requires o !in S.Run(cfg, first).ops && o in S.Run(cfg, first + more).ops
    requires var op := S.Run(cfg, first + more).ops[o]; Executes(op.request, command) && op.pc.Done?
    requires Settled(e, command)
    requires var stream := Stream(S.Run(cfg, first).log, command.continuationId);
      ReplayContinuation(stream) == Success(Some(e)) &&
      (command.ResumeCommand? ==> I.TokenFits(cfg, S.Run(cfg, first + more).ops[o].request, stream))
    ensures var op := S.Run(cfg, first + more).ops[o];
      op.committed.None? &&
      (op.pc.outcome == Success(e) || (op.pc.outcome == Failure(StoreFailed) && T.MetFault(cfg, first + more, o)))
  {
    var stream := Stream(S.Run(cfg, first).log, command.continuationId);
    ReplayAcceptsLegalStreams(stream);
    T.RetryAfterCommit(cfg, first, more, o);
    SettledAnswer(cfg, stream, S.Run(cfg, first + more).ops[o].request, command);
  }

  lemma SettledAnswer(cfg: S.Config, stream: seq<Event>, r: S.Request, command: Command)
    requires |stream| == 2 && LegalStream(stream) && Executes(r, command) && Settled(StateOf(stream), command)
    requires r.Resume? ==> I.TokenFits(cfg, r, stream)
    ensures T.RetryAnswer(cfg, stream, r) == Success(StateOf(stream))
  {
  }

  /** Left alone by faults, such a command is answered within two steps. */
  lemma ReexecutionIsAnswered(
    cfg: S.Config, actions: seq<S.Action>, o: nat, r: S.Request, load: S.Env, check: S.Env, e: Envelope,
    command: Command)
    requires o !in S.Run(cfg, actions).ops && !S.Fails(load.fault) && !S.Fails(check.fault)
    requires Executes(r, command) && Settled(e, command)
    requires var stream := Stream(S.Run(cfg, actions).log, command.continuationId);
      ReplayContinuation(stream) == Success(Some(e)) &&
      (r.Resume? ==> stream != [] && stream[0].WasCreated? &&
                     S.TokenHashesEqual(stream[0].resumeTokenHash, cfg.hash(r.resumeToken)))
    ensures var loaded := S.Apply(cfg, S.Apply(cfg, S.Run(cfg, actions), S.Begin(o, r)), S.Advance(o, load));
      var last := if r.Resume? then S.Apply(cfg, loaded, S.Advance(o, check)) else loaded;
      last.log == S.Run(cfg, actions).log && last.ops[o].pc == S.Done(Success(e))
  {
    var s := S.Run(cfg, actions);
    ReplayAcceptsLegalStreams(Stream(s.log, command.continuationId));
    SettledIsReturned(e, command);
    if r.Resume? {
      T.RetryIsAnswered(cfg, actions, o, r, load, check);
      SettledAnswer(cfg, Stream(s.log, r.continuationId), r, command);
    } else {
      CancelIsAnswered(cfg, s, o, r, load, e);
    }
  }

  lemma CancelIsAnswered(cfg: S.Config, s: S.State, o: nat, r: S.Request, load: S.Env, e: Envelope)
    requires o !in s.ops && r.Cancel? && !S.Fails(load.fault) && e.Cancelled?
    requires ReplayContinuation(Stream(s.log, r.continuationId)) == Success(Some(e))
    requires S.ResolveCompletedCancellation(e, r.continuationId, r.expectedVersion, r.reason) == Success(e)
    ensures var loaded := S.Apply(cfg, S.Apply(cfg, s, S.Begin(o, r)), S.Advance(o, load));
      loaded.log == s.log && o in loaded.ops && loaded.ops[o].pc == S.Done(Success(e))
  {
    var s1 := S.Apply(cfg, s, S.Begin(o, r));
    assert s1.log == s.log && s1.ops[o].request == r && s1.ops[o].pc == S.Start;
  }
}
