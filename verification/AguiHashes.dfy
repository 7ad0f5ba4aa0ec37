/** What the content hashes of the AG-UI adapter pin down, given that SHA-256 does not collide. */
module AguiHashes {
  import opened Text16
  import opened JsonText
  import opened JsonEquality
  import opened Domain
  import opened AguiReceipt
  import opened Protocol

  // ---------------------------------------------------------------- cohort ids

  lemma IssuedJsonKeys(c: Codec, i: Issued)
    ensures IssuedJson(c, i).Obj? && DistinctKeys(IssuedJson(c, i).fields) && WellFormed(IssuedJson(c, i))
  {
  }

  lemma DescriptorKeys(c: Codec, threadId: Text, runId: Text, interrupts: seq<Issued>)
    ensures var d := ReceiptDescriptor(c, threadId, runId, interrupts);
      d.Obj? && DistinctKeys(d.fields) && WellFormed(d)
  {
    var d := ReceiptDescriptor(c, threadId, runId, interrupts);
    var list := d.fields[3].value;
    forall k | 0 <= k < |list.items| ensures WellFormed(list.items[k]) {
      IssuedJsonKeys(c, interrupts[k]);
    }
    forall k | 0 <= k < |d.fields| ensures WellFormed(d.fields[k].value) {
      if k == 3 { assert WellFormed(list); }
    }
  }

  lemma SameIssued(c: Codec, i: Issued, j: Issued)
    requires Injective(c) && SameJson(IssuedJson(c, i), IssuedJson(c, j))
    ensures i == j
  {
    IssuedJsonKeys(c, i);
    IssuedJsonKeys(c, j);
    var f, g := IssuedJson(c, i).fields, IssuedJson(c, j).fields;
    SameMember(f, g, 0);
    SameMember(f, g, 1);
    SameMember(f, g, 2);
    SameMember(f, g, 3);
    DecimalIsInjective(i.issuedVersion, j.issuedVersion);
  }

  lemma SameDescriptor(c: Codec, r: Receipt, s: Receipt)
    requires Injective(c)
    requires SameJson(ReceiptDescriptor(c, r.threadId, r.runId, r.interrupts),
                      ReceiptDescriptor(c, s.threadId, s.runId, s.interrupts))
    ensures r.threadId == s.threadId && r.runId == s.runId && r.interrupts == s.interrupts
  {
    var d, e := ReceiptDescriptor(c, r.threadId, r.runId, r.interrupts),
                ReceiptDescriptor(c, s.threadId, s.runId, s.interrupts);
    DescriptorKeys(c, s.threadId, s.runId, s.interrupts);
    SameMember(d.fields, e.fields, 1);
    SameMember(d.fields, e.fields, 2);
    SameMember(d.fields, e.fields, 3);
    SameInterrupts(c, r.interrupts, s.interrupts, d.fields[3].value, e.fields[3].value);
  }

  /** Two receipts with one cohort id are one receipt: same thread, same run, same interrupts in the same order. */
  lemma CohortIdPinsTheReceipt(c: Codec, r: Receipt, s: Receipt)
    requires Injective(c) && r.cohortId == s.cohortId
    requires r.cohortId == CohortId(c, r.threadId, r.runId, r.interrupts)
    requires s.cohortId == CohortId(c, s.threadId, s.runId, s.interrupts)
    ensures r == s
  {
    assert r.cohortId[12..] == CohortHash(c, r.threadId, r.runId, r.interrupts);
    assert s.cohortId[12..] == CohortHash(c, s.threadId, s.runId, s.interrupts);
    DescriptorKeys(c, r.threadId, r.runId, r.interrupts);
    DescriptorKeys(c, s.threadId, s.runId, s.interrupts);
    SameTaggedHash(c, Str(Ascii("agui-cohort-v1")),
                   ReceiptDescriptor(c, r.threadId, r.runId, r.interrupts),
                   ReceiptDescriptor(c, s.threadId, s.runId, s.interrupts));
    SameDescriptor(c, r, s);
  }

  lemma SameInterrupts(c: Codec, a: seq<Issued>, b: seq<Issued>, x: Json, y: Json)
    requires Injective(c) && SameJson(x, y) && x.Arr? && y.Arr? && |x.items| == |a| && |y.items| == |b|
    requires forall k | 0 <= k < |a| :: x.items[k] == IssuedJson(c, a[k])
    requires forall k | 0 <= k < |b| :: y.items[k] == IssuedJson(c, b[k])
    ensures a == b
  {
    forall k | 0 <= k < |a| ensures a[k] == b[k] {
      assert SameJson(x.items[k], y.items[k]);
      SameIssued(c, a[k], b[k]);
    }
  }

  // ---------------------------------------------------------------- idempotency keys and payload hashes

  /** Two resume keys coincide exactly for the same thread, the same interrupt and equal payloads. */
  lemma KeyPinsTheDecision(c: Codec, thread1: Text, id1: Text, payload1: Json, thread2: Text, id2: Text, payload2: Json)
    requires Injective(c) && WellFormed(payload1) && WellFormed(payload2)
    ensures ResumeIdempotencyKey(c, thread1, id1, payload1) == ResumeIdempotencyKey(c, thread2, id2, payload2) <==>
      thread1 == thread2 && id1 == id2 && SameJson(payload1, payload2)
  {
    var a, b := KeyTuple(thread1, id1, payload1), KeyTuple(thread2, id2, payload2);
    TupleIsWellFormed(thread1, id1, payload1);
    TupleIsWellFormed(thread2, id2, payload2);
    SameTuple(a, b);
    assert ResumeIdempotencyKey(c, thread1, id1, payload1)[5..] == HashJson(c, a);
    assert ResumeIdempotencyKey(c, thread2, id2, payload2)[5..] == HashJson(c, b);
    HashDecidesEquality(c, a, b);
  }

  lemma TupleIsWellFormed(thread: Text, id: Text, payload: Json)
    requires WellFormed(payload)
    ensures WellFormed(KeyTuple(thread, id, payload))
  {
  }

  lemma SameTuple(a: Json, b: Json)
    requires a.Arr? && b.Arr? && |a.items| == |b.items| == 6
    requires SameJson(a.items[0], b.items[0]) && SameJson(a.items[3], b.items[3]) && SameJson(a.items[4], b.items[4])
    ensures SameJson(a, b) <==>
      SameJson(a.items[1], b.items[1]) && SameJson(a.items[2], b.items[2]) && SameJson(a.items[5], b.items[5])
  {
  }

  /** A continuation that passes the cohort check carries the payload that was issued. */
  lemma PayloadHashPinsThePayload(c: Codec, threadId: Text, issuedFor: Envelope, current: Envelope)
    requires Injective(c) && WellFormed(issuedFor.base.payload) && WellFormed(current.base.payload)
    requires MatchesIssue(c, threadId, Issue(c, issuedFor), current)
    ensures SameJson(issuedFor.base.payload, current.base.payload)
  {
    HashDecidesEquality(c, issuedFor.base.payload, current.base.payload);
  }
}
