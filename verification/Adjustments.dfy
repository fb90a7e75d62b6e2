/** Each weight adjustment is applied at most once while the ledger remembers all of them, and
    the audit trail is the greatest part of the run's history. */
module Adjustments {
  import opened Numbers
  import opened Timeline
  import opened Lifecycle
  import opened BoundedLog

  /** What is on record after one more operation. */
  ghost function RecordedAfter(ids: IdScheme, m: Memory, op: Op, recorded: map<Id, Adjustment>): map<Id, Adjustment> {
    if op.OpAddWeight? && AddWeight(ids, m, op.adjustmentId, op.payload).verdict == Applied then
      recorded[AdjustmentId(ids, op.adjustmentId, op.payload) := Normalized(op.payload)]
    else recorded
  }

  /** The adjustments a run has put on record, by id. */
  ghost function Recorded(ids: IdScheme, ops: seq<Op>): map<Id, Adjustment> {
    if ops == [] then map[]
    else RecordedAfter(ids, Run(ids, ops[..|ops| - 1]), ops[|ops| - 1], Recorded(ids, ops[..|ops| - 1]))
  }

  /** A call under this id. */
  predicate Calls(ids: IdScheme, op: Op, adjustmentId: Id) {
    op.OpAddWeight? && AdjustmentId(ids, op.adjustmentId, op.payload) == adjustmentId
  }

  /** How many calls under this id changed a candidate or a rule. */
  ghost function Changes(ids: IdScheme, ops: seq<Op>, adjustmentId: Id): nat {
    if ops == [] then 0
    else
      var m, n := Run(ids, ops[..|ops| - 1]), Run(ids, ops);
      Changes(ids, ops[..|ops| - 1], adjustmentId)
      + if Calls(ids, ops[|ops| - 1], adjustmentId) && (n.cands != m.cands || n.rules != m.rules) then 1 else 0
  }

  /** The audit event of the adjustment carries no more reason codes than fit. */
  predicate Loggable(request: Adjustment) { |Normalized(request).reasonCodes| <= MAX_LIST_ITEMS }

  predicate Unknown(m: Memory, id: Id) {
    (forall e | e in m.ledger :: e.id != id) && forall e | e in m.audit :: !Adjusts(e, id)
  }

  /** One call writes candidate and rule exactly when its own reason codes fit, the candidate exists
      and neither the ledger nor the audit trail knows its id; it is put on record when the codes
      fit together with the two that are added. */
  lemma WritesIff(ids: IdScheme, m: Memory, givenId: Option<Id>, request: Adjustment)
    ensures var v := AddWeight(ids, m, givenId, request).verdict;
            && (Wrote(v) <==> |request.reasonCodes| <= MAX_LIST_ITEMS && request.candidateId in m.cands
                              && Unknown(m, AdjustmentId(ids, givenId, request)))
            && (v == Applied <==> Wrote(v) && Loggable(request))
  {
    var id := AdjustmentId(ids, givenId, request);
    var k := Find(m.ledger, id, LedgerKey);
    assert k != -1 ==> m.ledger[k] in m.ledger;
    assert |request.reasonCodes| <= |Normalized(request).reasonCodes| by {
      SubsetSize(request.reasonCodes, Normalized(request).reasonCodes);
    }
  }

  // ----- what the two logs remember --------------------------------------------------------

  ghost predicate HasEntry(ledger: seq<LedgerEntry>, id: Id) {
    exists e :: e in ledger && e.id == id
  }

  ghost predicate LedgerHolds(ledger: seq<LedgerEntry>, recorded: map<Id, Adjustment>) {
    && Ordered(ledger, LedgerKey) && UniqueIds(ledger, LedgerKey)
    && (forall e | e in ledger :: e.id in recorded && recorded[e.id] == e.digest)
    && (|recorded| <= MAX_LEDGER_ENTRIES ==>
          forall id {:trigger HasEntry(ledger, id)} | id in recorded :: HasEntry(ledger, id))
  }

  ghost predicate TrailAgrees(audit: seq<AuditEvent>, recorded: map<Id, Adjustment>) {
    forall e | e in audit && e.seed.detail.Weight? ::
      e.seed.operation == "addweight" && e.seed.detail.adjustmentId in recorded && recorded[e.seed.detail.adjustmentId] == e.seed.detail.digest
  }

  lemma {:induction false} UniqueFitsIn(ledger: seq<LedgerEntry>, names: set<Id>)
    requires UniqueIds(ledger, LedgerKey) && forall e | e in ledger :: e.id in names
    ensures |ledger| <= |names|
  {
    if ledger != [] {
      var front, l := ledger[..|ledger| - 1], ledger[|ledger| - 1];
      assert l in ledger;
      forall e | e in front ensures e.id in names - {l.id} {
        assert e in ledger;
      }
      UniqueFitsIn(front, names - {l.id});
    }
  }

  lemma AppendMembers<T(!new)>(log: seq<T>, x: T, key: T -> Key, n: nat)
    requires Ordered(log, key) && UniqueIds(log, key)
    ensures Ordered(Append(log, x, key, n), key) && UniqueIds(Append(log, x, key, n), key)
    ensures forall y :: y in Append(log, x, key, n) ==> y == x || y in log
    ensures |log| < n && Find(log, key(x).id, key) == -1 ==> forall y | y == x || y in log :: y in Append(log, x, key, n)
  {
    if Find(log, key(x).id, key) == -1 {
      AppendFresh(log, x, key, n);
      LastMembers(Insert(log, x, key), key, n);
    } else {
      SortOfOrdered(log, key);
      LastMembers(log, key, n);
    }
  }

  lemma EnterNew(ledger: seq<LedgerEntry>, recorded: map<Id, Adjustment>, entry: LedgerEntry)
    requires LedgerHolds(ledger, recorded) && Find(ledger, entry.id, LedgerKey) == -1
    ensures LedgerHolds(Enter(ledger, entry), recorded[entry.id := entry.digest])
  {
    AppendMembers(ledger, entry, LedgerKey, MAX_LEDGER_ENTRIES);
    assert forall e | e in ledger :: e.id != entry.id;
    NewEntryHolds(ledger, Enter(ledger, entry), recorded, entry);
  }

  lemma NewEntryHolds(ledger: seq<LedgerEntry>, next: seq<LedgerEntry>, recorded: map<Id, Adjustment>, entry: LedgerEntry)
    requires LedgerHolds(ledger, recorded) && forall e | e in ledger :: e.id != entry.id
    requires Ordered(next, LedgerKey) && UniqueIds(next, LedgerKey)
    requires forall e | e in next :: e == entry || e in ledger
    requires |ledger| < MAX_LEDGER_ENTRIES ==> forall e | e == entry || e in ledger :: e in next
    ensures LedgerHolds(next, recorded[entry.id := entry.digest])
  {
    var after := recorded[entry.id := entry.digest];
    if |after| <= MAX_LEDGER_ENTRIES {
      SubsetSize(recorded.Keys, after.Keys);
      assert !HasEntry(ledger, entry.id);
      assert after.Keys == recorded.Keys + {entry.id};
      UniqueFitsIn(ledger, recorded.Keys);
      forall id | id in after ensures HasEntry(next, id) {
        if id == entry.id {
          assert entry in next;
        } else {
          assert HasEntry(ledger, id);
          var e :| e in ledger && e.id == id;
          assert e in next;
        }
      }
    }
  }

  lemma TrailGrows(audit: seq<AuditEvent>, next: seq<AuditEvent>, event: AuditEvent, recorded: map<Id, Adjustment>)
    requires TrailAgrees(audit, recorded) && event.seed.detail.Weight? && event.seed.operation == "addweight"
    requires forall e | e in next :: e == event || (e in audit && !Adjusts(e, event.seed.detail.adjustmentId))
    ensures TrailAgrees(next, recorded[event.seed.detail.adjustmentId := event.seed.detail.digest])
  {
  }

  /** The audit-trail fallback re-enters an adjustment that is on record. */
  lemma EnterKnown(ledger: seq<LedgerEntry>, recorded: map<Id, Adjustment>, entry: LedgerEntry)
    requires LedgerHolds(ledger, recorded) && Find(ledger, entry.id, LedgerKey) == -1
    requires entry.id in recorded && recorded[entry.id] == entry.digest
    ensures LedgerHolds(Enter(ledger, entry), recorded)
  {
    SameRecorded(recorded, entry.id, entry.digest);
    EnterNew(ledger, recorded, entry);
  }

  lemma SameRecorded(recorded: map<Id, Adjustment>, id: Id, p: Adjustment)
    requires id in recorded && recorded[id] == p
    ensures recorded[id := p] == recorded
  {
  }

  /** Only addweight and audit steps touch the two logs. */
  lemma {:induction false} ShadowWriteKeepsLogs(ids: IdScheme, m: Memory, batch: seq<WriteRequest>, at: Time)
    ensures ShadowWrite(ids, m, batch, at).memory.ledger == m.ledger
    ensures ShadowWrite(ids, m, batch, at).memory.audit == m.audit
    decreases batch
  {
    if batch != [] && WriteError(batch[0]).None? {
      ShadowWriteKeepsLogs(ids, WriteOne(m, NormalizeShadowCandidate(ids, batch[0]), at), batch[1..], at);
    }
  }

  lemma {:induction false} OverrideKeepsLogs(m: Memory, targets: seq<Id>, at: Time)
    ensures OverrideEach(m, targets, at).ledger == m.ledger && OverrideEach(m, targets, at).audit == m.audit
  {
    if targets != [] {
      OverrideKeepsLogs(m, targets[..|targets| - 1], at);
    }
  }

  lemma ReplayEvalKeepsLogs(ids: IdScheme, m: Memory, q: EvalRequest)
    ensures ReplayEval(ids, m, q).memory.ledger == m.ledger && ReplayEval(ids, m, q).memory.audit == m.audit
  {
  }

  lemma FeedbackKeepsLogs(m: Memory, f: FeedbackRecord)
    ensures Feedback(m, f).memory.ledger == m.ledger && Feedback(m, f).memory.audit == m.audit
  {
  }

  lemma StepKeepsLogs(ids: IdScheme, m: Memory, op: Op)
    requires !op.OpAddWeight? && !op.OpAudit?
    ensures Step(ids, m, op).memory.ledger == m.ledger && Step(ids, m, op).memory.audit == m.audit
  {
    match op
    case OpShadowWrite(batch, at) => ShadowWriteKeepsLogs(ids, m, batch, at);
    case OpOverride(rs, cs, at) => OverrideKeepsLogs(m, Listed(Targets(m, rs, cs)), at);
    case OpReplayEval(q) => ReplayEvalKeepsLogs(ids, m, q);
    case OpPromote(id, at, window) =>
    case OpDemote(id, at, threshold, force, reasons) =>
    case OpQuarantine(rs, cs, at, reasons) =>
    case OpFeedback(f) => FeedbackKeepsLogs(m, f);
    case OpOutcome(o) =>
    case OpCurate(winners, at) =>
    case OpTick(at) =>
  }

  // ----- runs ------------------------------------------------------------------------------

  ghost predicate Remembers(m: Memory, recorded: map<Id, Adjustment>) {
    && LedgerHolds(m.ledger, recorded)
    && TrailAgrees(m.audit, recorded)
    && Ordered(m.audit, AuditKey) && UniqueIds(m.audit, AuditKey)
  }

  lemma AdjustedRemembers(ids: IdScheme, m: Memory, id: Id, p: Adjustment, recorded: map<Id, Adjustment>)
    requires Remembers(m, recorded) && p.candidateId in m.cands && Find(m.ledger, id, LedgerKey) == -1
    requires forall e | e in m.audit :: !Adjusts(e, id)
    ensures Remembers(Adjusted(ids, m, id, p), recorded[id := p])
  {
    var event, n := WeightEvent(ids, m, id, p), Adjusted(ids, m, id, p);
    EnterNew(m.ledger, recorded, LedgerEntry(id, p, event.id, p.at));
    AppendMembers(m.audit, event, AuditKey, MAX_AUDIT_EVENTS);
    TrailGrows(m.audit, n.audit, event, recorded);
  }

  lemma AddWeightRemembers(ids: IdScheme, m: Memory, givenId: Option<Id>, request: Adjustment, recorded: map<Id, Adjustment>)
    requires Remembers(m, recorded)
    ensures var reply := AddWeight(ids, m, givenId, request);
            Remembers(reply.memory,
                      if reply.verdict == Applied then recorded[AdjustmentId(ids, givenId, request) := Normalized(request)] else recorded)
  {
    var p, id := Normalized(request), AdjustmentId(ids, givenId, request);
    var k := Find(m.ledger, id, LedgerKey);
    var prior := FindAdjustmentEvent(m.audit, id);
    if |request.reasonCodes| <= MAX_LIST_ITEMS && k == -1 && p.candidateId in m.cands {
      if prior.None? {
        if |p.reasonCodes| <= MAX_LIST_ITEMS {
          AdjustedRemembers(ids, m, id, p, recorded);
        }
      } else if prior.value.seed.detail.digest == p {
        EnterKnown(m.ledger, recorded, LedgerEntry(id, p, prior.value.id, p.at));
      }
    }
  }

  lemma StepRemembers(ids: IdScheme, m: Memory, op: Op, recorded: map<Id, Adjustment>)
    requires Remembers(m, recorded)
    ensures Remembers(Step(ids, m, op).memory, RecordedAfter(ids, m, op, recorded))
  {
    if op.OpAddWeight? {
      AddWeightRemembers(ids, m, op.adjustmentId, op.payload, recorded);
    } else if op.OpAudit? {
      AppendMembers(m.audit, PlainEvent(ids, op), AuditKey, MAX_AUDIT_EVENTS);
    } else {
      StepKeepsLogs(ids, m, op);
    }
  }

  lemma {:induction false} RunRemembers(ids: IdScheme, ops: seq<Op>)
    ensures Remembers(Run(ids, ops), Recorded(ids, ops))
  {
    if ops != [] {
      RunRemembers(ids, ops[..|ops| - 1]);
      StepRemembers(ids, Run(ids, ops[..|ops| - 1]), ops[|ops| - 1], Recorded(ids, ops[..|ops| - 1]));
    }
  }

  /** While at most 4096 adjustments are on record, one on record is never applied again: the same
      request changes nothing, and another payload under its id is refused. */
  lemma RecordedIsFinal(ids: IdScheme, ops: seq<Op>, givenId: Option<Id>, request: Adjustment)
    requires |Recorded(ids, ops)| <= 4096
    requires AdjustmentId(ids, givenId, request) in Recorded(ids, ops)
    ensures AddWeight(ids, Run(ids, ops), givenId, request) ==
            Reply(Run(ids, ops),
                  if |request.reasonCodes| > MAX_LIST_ITEMS then Rejected(TooManyReasonCodes)
                  else if Recorded(ids, ops)[AdjustmentId(ids, givenId, request)] == Normalized(request) then Noop
                  else Rejected(AdjustmentCollision))
  {
    RunRemembers(ids, ops);
    var m, id := Run(ids, ops), AdjustmentId(ids, givenId, request);
    assert HasEntry(m.ledger, id);
    var k := Find(m.ledger, id, LedgerKey);
    assert k != -1;
    assert m.ledger[k] in m.ledger;
  }

  /** One more call changes a record at most when it puts its id on record. */
  lemma CallChangesOnce(ids: IdScheme, front: seq<Op>, op: Op, adjustmentId: Id)
    requires Calls(ids, op, adjustmentId) && Loggable(op.payload) && |Recorded(ids, front)| <= MAX_LEDGER_ENTRIES
    ensures var m, reply := Run(ids, front), Step(ids, Run(ids, front), op);
            && (reply.memory.cands != m.cands || reply.memory.rules != m.rules ==> reply.verdict == Applied)
            && (reply.verdict == Applied ==> adjustmentId !in Recorded(ids, front))
  {
    AddWeightCases(ids, Run(ids, front), op.adjustmentId, op.payload);
    WritesIff(ids, Run(ids, front), op.adjustmentId, op.payload);
    if adjustmentId in Recorded(ids, front) {
      RecordedIsFinal(ids, front, op.adjustmentId, op.payload);
    }
  }

  /** So over any interleaving of operations an adjustment whose reason codes fit changes a
      confidence at most once, and only by going on record. */
  lemma {:induction false} AppliedAtMostOnce(ids: IdScheme, ops: seq<Op>, adjustmentId: Id)
    requires |Recorded(ids, ops)| <= MAX_LEDGER_ENTRIES
    requires forall op | op in ops && Calls(ids, op, adjustmentId) :: Loggable(op.payload)
    ensures Changes(ids, ops, adjustmentId) <= if adjustmentId in Recorded(ids, ops) then 1 else 0
  {
    if ops != [] {
      var front, op := ops[..|ops| - 1], ops[|ops| - 1];
      assert op in ops && forall o | o in front :: o in ops;
      SubsetSize(Recorded(ids, front).Keys, Recorded(ids, ops).Keys);
      AppliedAtMostOnce(ids, front, adjustmentId);
      if Calls(ids, op, adjustmentId) {
        CallChangesOnce(ids, front, op, adjustmentId);
      }
    }
  }

  /** Repeating a call right after it wrote writes again exactly when its audit event is refused, or
      when the ledger and the trail, which forget the earliest timestamps and not the earliest
      calls, are both full and cut its records at once. */
  lemma RepeatAppliesAgainIff(ids: IdScheme, m: Memory, givenId: Option<Id>, request: Adjustment)
    requires Wrote(AddWeight(ids, m, givenId, request).verdict)
    requires Ordered(m.ledger, LedgerKey) && UniqueIds(m.ledger, LedgerKey) && |m.ledger| <= MAX_LEDGER_ENTRIES
    requires Ordered(m.audit, AuditKey) && UniqueIds(m.audit, AuditKey) && |m.audit| <= MAX_AUDIT_EVENTS
    requires ids.Injective() && forall e | e in m.audit :: e.id == ids.audit(e.seed)
    ensures request.candidateId in m.cands
    ensures var id := AdjustmentId(ids, givenId, request);
            var event := WeightEvent(ids, m, id, Normalized(request));
            Wrote(AddWeight(ids, AddWeight(ids, m, givenId, request).memory, givenId, request).verdict) <==>
              !Loggable(request)
              || (&& |m.ledger| == MAX_LEDGER_ENTRIES && Before(Key(request.at, id), LedgerKey(m.ledger[0]))
                  && |m.audit| == MAX_AUDIT_EVENTS && Before(AuditKey(event), AuditKey(m.audit[0])))
  {
    var p, id := Normalized(request), AdjustmentId(ids, givenId, request);
    var n := AddWeight(ids, m, givenId, request).memory;
    WritesIff(ids, m, givenId, request);
    WritesIff(ids, n, givenId, request);
    AddWeightCases(ids, m, givenId, request);
    if Loggable(request) {
      var event := WeightEvent(ids, m, id, p);
      LedgerForgetsIff(m.ledger, LedgerEntry(id, p, event.id, p.at));
      TrailForgetsIff(ids, m.audit, event, id);
    }
  }

  // ----- full logs ---------------------------------------------------------------------------

  /** An adjustment by nothing, one for each moment. */
  function Routine(n: nat): Adjustment { Adjustment(7, 0, "", "", {}, n) }

  /** A write and so many of them. */
  function Filling(w: WriteRequest, n: nat): seq<Op> {
    if n == 0 then [OpShadowWrite([w], 0)] else Filling(w, n - 1) + [OpAddWeight(Some(n), Routine(n))]
  }

  ghost predicate LedgerFilled(ledger: seq<LedgerEntry>, n: nat) {
    |ledger| == n && forall i | 0 <= i < n :: LedgerKey(ledger[i]) == Key(i + 1, i + 1)
  }

  predicate RoutineEvent(ids: IdScheme, e: AuditEvent, n: nat) {
    e.id == ids.audit(e.seed) && e.seed.detail.Weight? && e.seed.detail.adjustmentId == e.seed.at && 1 <= e.seed.at <= n
  }

  ghost predicate TrailFilled(ids: IdScheme, audit: seq<AuditEvent>, n: nat) {
    && |audit| == Min(n, MAX_AUDIT_EVENTS) && Ordered(audit, AuditKey) && UniqueIds(audit, AuditKey)
    && forall e | e in audit :: RoutineEvent(ids, e, n)
  }

  ghost predicate Filled(ids: IdScheme, m: Memory, n: nat) {
    && 7 in m.cands && m.cands[7].confidence == 0.5
    && LedgerFilled(m.ledger, n) && TrailFilled(ids, m.audit, n)
  }

  lemma AppendAtEnd<T(!new)>(log: seq<T>, x: T, key: T -> Key, n: nat)
    requires Ordered(log, key) && UniqueIds(log, key) && Find(log, key(x).id, key) == -1
    requires forall y | y in log :: Before(key(y), key(x))
    ensures Append(log, x, key, n) == Last(log + [x], n)
    ensures Ordered(Append(log, x, key, n), key) && UniqueIds(Append(log, x, key, n), key)
  {
    AppendFresh(log, x, key, n);
    LastMembers(Insert(log, x, key), key, n);
    if log != [] {
      assert log[|log| - 1] in log;
    }
  }

  lemma LedgerFills(ledger: seq<LedgerEntry>, entry: LedgerEntry, n: nat)
    requires LedgerFilled(ledger, n) && n < MAX_LEDGER_ENTRIES && LedgerKey(entry) == Key(n + 1, n + 1)
    ensures LedgerFilled(Enter(ledger, entry), n + 1)
  {
    FilledIsOrdered(ledger, n);
    forall y | y in ledger ensures Before(LedgerKey(y), LedgerKey(entry)) && y.id != entry.id {
      var i :| 0 <= i < n && ledger[i] == y;
      assert LedgerKey(ledger[i]) == Key(i + 1, i + 1);
    }
    AppendAtEnd(ledger, entry, LedgerKey, MAX_LEDGER_ENTRIES);
    OneMoreFilled(ledger, entry, n);
  }

  lemma OneMoreFilled(ledger: seq<LedgerEntry>, entry: LedgerEntry, n: nat)
    requires LedgerFilled(ledger, n) && LedgerKey(entry) == Key(n + 1, n + 1)
    ensures LedgerFilled(ledger + [entry], n + 1)
  {
    forall i | 0 <= i < n + 1 ensures LedgerKey((ledger + [entry])[i]) == Key(i + 1, i + 1) {
      if i < n {
        assert (ledger + [entry])[i] == ledger[i];
      }
    }
  }

  lemma TrailFills(ids: IdScheme, audit: seq<AuditEvent>, event: AuditEvent, n: nat)
    requires ids.Injective() && TrailFilled(ids, audit, n) && RoutineEvent(ids, event, n + 1) && event.seed.at == n + 1
    ensures TrailFilled(ids, Append(audit, event, AuditKey, MAX_AUDIT_EVENTS), n + 1)
  {
    forall e | e in audit ensures Before(AuditKey(e), AuditKey(event)) && e.id != event.id {
      assert RoutineEvent(ids, e, n);
    }
    AppendAtEnd(audit, event, AuditKey, MAX_AUDIT_EVENTS);
    var next := Append(audit, event, AuditKey, MAX_AUDIT_EVENTS);
    forall e | e in next ensures RoutineEvent(ids, e, n + 1) {
      assert e == event || RoutineEvent(ids, e, n);
    }
  }

  lemma UnknownWhenFilled(ids: IdScheme, m: Memory, n: nat, id: Id)
    requires Filled(ids, m, n) && !(1 <= id <= n)
    ensures Unknown(m, id)
  {
    forall e | e in m.ledger ensures e.id != id {
      var i :| 0 <= i < n && m.ledger[i] == e;
      assert LedgerKey(m.ledger[i]).id == i + 1;
    }
    forall e | e in m.audit ensures !Adjusts(e, id) {
      assert RoutineEvent(ids, e, n);
    }
  }

  /** A call that is applied, and by how much. */
  lemma AppliedCall(ids: IdScheme, m: Memory, id: Id, p: Adjustment, n: int)
    requires Unknown(m, id) && p.candidateId in m.cands && p.reasonCodes == {}
    requires m.cands[p.candidateId].confidence == n as real / 1000000.0 && 0 <= n <= n + p.delta <= 1000000
    ensures var reply := AddWeight(ids, m, Some(id), p);
            && reply.verdict == Applied && reply.memory == Adjusted(ids, m, id, Normalized(p))
            && reply.memory.cands[p.candidateId].confidence == (n + p.delta) as real / 1000000.0
  {
    WritesIff(ids, m, Some(id), p);
    AddWeightResult(ids, m, Some(id), p);
    AdjustedRecords(ids, m, id, Normalized(p));
    ReweightedBy(m.cands[p.candidateId], id, Normalized(p), n);
  }

  lemma ReweightedBy(c: Candidate, id: Id, p: Adjustment, n: int)
    requires c.confidence == n as real / 1000000.0 && 0 <= n <= n + p.delta <= 1000000
    ensures Reweighted(c, id, p).confidence == (n + p.delta) as real / 1000000.0
  {
    assert n as real / 1000000.0 + p.delta as real / 1000000.0 == (n + p.delta) as real / 1000000.0;
    Round6Exact(n + p.delta);
  }

  lemma FillsOneMore(ids: IdScheme, m: Memory, n: nat)
    requires ids.Injective() && Filled(ids, m, n) && n < MAX_LEDGER_ENTRIES
    ensures Filled(ids, AddWeight(ids, m, Some(n + 1), Routine(n + 1)).memory, n + 1)
  {
    var p := Normalized(Routine(n + 1));
    UnknownWhenFilled(ids, m, n, n + 1);
    AppliedCall(ids, m, n + 1, Routine(n + 1), 500000);
    var event := WeightEvent(ids, m, n + 1, p);
    LedgerFills(m.ledger, LedgerEntry(n + 1, p, event.id, p.at), n);
    TrailFills(ids, m.audit, event, n);
  }

  lemma {:induction false} FillingFills(ids: IdScheme, w: WriteRequest, n: nat)
    requires ids.Injective() && WriteError(w).None? && w.candidateId == Some(7) && w.confidence == 0.5
    requires n <= MAX_LEDGER_ENTRIES
    ensures Filled(ids, Run(ids, Filling(w, n)), n)
  {
    if n == 0 {
      WriteFirst(ids, w, 0);
    } else {
      FillingFills(ids, w, n - 1);
      RunOneCall(ids, Filling(w, n - 1), Some(n), Routine(n));
      FillsOneMore(ids, Run(ids, Filling(w, n - 1)), n - 1);
    }
  }

  /** Such logs exist: after 4096 adjustments one dated before them all, by a tenth, moves a confidence
      of a half to six and then to seven tenths. */
  lemma FullLogsExample(ids: IdScheme, w: WriteRequest, p: Adjustment, n: nat)
    requires ids.Injective() && WriteError(w).None? && w.candidateId == Some(7) && w.confidence == 0.5
    requires n == 4096 && p == Routine(0).(delta := 100000)
    ensures var adjust := OpAddWeight(Some(0), p);
            var one, two := Run(ids, Filling(w, n) + [adjust]), Run(ids, Filling(w, n) + [adjust] + [adjust]);
            && 7 in one.cands && one.cands[7].confidence == 0.6 && 7 in two.cands && two.cands[7].confidence == 0.7
            && AddWeight(ids, one, Some(0), p).verdict == Applied
  {
    var m := Run(ids, Filling(w, n));
    FillingFills(ids, w, n);
    UnknownWhenFilled(ids, m, n, 0);
    AppliedCall(ids, m, 0, p, 500000);
    RunOneCall(ids, Filling(w, n), Some(0), p);
    AppliedAgain(ids, m, p, n);
    var one := AddWeight(ids, m, Some(0), p).memory;
    AppliedCall(ids, one, 0, p, 600000);
    RunOneCall(ids, Filling(w, n) + [OpAddWeight(Some(0), p)], Some(0), p);
  }

  lemma AppliedAgain(ids: IdScheme, m: Memory, p: Adjustment, n: nat)
    requires ids.Injective() && Filled(ids, m, n) && n == MAX_LEDGER_ENTRIES && p == Routine(0).(delta := 100000)
    requires AddWeight(ids, m, Some(0), p).verdict == Applied
    ensures Unknown(AddWeight(ids, m, Some(0), p).memory, 0)
  {
    var event := WeightEvent(ids, m, 0, Normalized(p));
    assert LedgerKey(m.ledger[0]) == Key(1, 1);
    assert RoutineEvent(ids, m.audit[0], n);
    FilledIsOrdered(m.ledger, n);
    RepeatAppliesAgainIff(ids, m, Some(0), p);
    WritesIff(ids, AddWeight(ids, m, Some(0), p).memory, Some(0), p);
  }

  lemma FilledIsOrdered(ledger: seq<LedgerEntry>, n: nat)
    requires LedgerFilled(ledger, n)
    ensures Ordered(ledger, LedgerKey) && UniqueIds(ledger, LedgerKey)
  {
  }

  // ----- adjustments with too many reason codes ----------------------------------------------

  /** A memory in which a call writes and goes unrecorded. */
  predicate Unrecordable(ids: IdScheme, m: Memory, givenId: Option<Id>, request: Adjustment) {
    |request.reasonCodes| <= MAX_LIST_ITEMS && !Loggable(request) && request.candidateId in m.cands
    && Unknown(m, AdjustmentId(ids, givenId, request))
  }

  /** A call that wrote: still unrecordable, the logs as they were, and the confidence moved. */
  ghost predicate WroteUnrecorded(ids: IdScheme, m: Memory, n: Memory, givenId: Option<Id>, request: Adjustment)
    requires request.candidateId in m.cands
  {
    && Unrecordable(ids, n, givenId, request) && n.ledger == m.ledger && n.audit == m.audit
    && n.cands[request.candidateId].confidence
       == Round6(Clamp01(Clamp01(m.cands[request.candidateId].confidence) + request.delta as real / 1000000.0))
  }

  lemma UnrecordedCall(ids: IdScheme, m: Memory, givenId: Option<Id>, request: Adjustment)
    requires Unrecordable(ids, m, givenId, request)
    ensures var reply := AddWeight(ids, m, givenId, request);
            reply.verdict == Rejected(AuditRefused) && WroteUnrecorded(ids, m, reply.memory, givenId, request)
  {
    WritesIff(ids, m, givenId, request);
  }

  function Repeated(op: Op, times: nat): seq<Op> {
    if times == 0 then [] else Repeated(op, times - 1) + [op]
  }

  lemma RunOneCall(ids: IdScheme, ops: seq<Op>, givenId: Option<Id>, request: Adjustment)
    ensures Run(ids, ops + [OpAddWeight(givenId, request)]) == AddWeight(ids, Run(ids, ops), givenId, request).memory
  {
    assert (ops + [OpAddWeight(givenId, request)])[..|ops|] == ops;
  }

  lemma UnrecordedRun(ids: IdScheme, ops: seq<Op>, givenId: Option<Id>, request: Adjustment)
    requires Unrecordable(ids, Run(ids, ops), givenId, request)
    ensures WroteUnrecorded(ids, Run(ids, ops), Run(ids, ops + [OpAddWeight(givenId, request)]), givenId, request)
  {
    UnrecordedCall(ids, Run(ids, ops), givenId, request);
    RunOneCall(ids, ops, givenId, request);
  }

  /** Such a call, sent any number of times, writes every time: nothing ever comes to know its id. */
  lemma UnrecordedWritesEveryTime(ids: IdScheme, ops: seq<Op>, givenId: Option<Id>, request: Adjustment, times: nat)
    requires Unrecordable(ids, Run(ids, ops), givenId, request)
    ensures var m := Run(ids, ops + Repeated(OpAddWeight(givenId, request), times));
            && Unrecordable(ids, m, givenId, request)
            && AddWeight(ids, m, givenId, request).verdict == Rejected(AuditRefused)
            && m.ledger == Run(ids, ops).ledger && m.audit == Run(ids, ops).audit
  {
    UnrecordedStays(ids, Run(ids, ops), ops, givenId, request, times);
    UnrecordedCall(ids, Run(ids, ops + Repeated(OpAddWeight(givenId, request), times)), givenId, request);
  }

  /** As unrecordable as at the start, with the logs as they were. */
  ghost predicate StillUnrecorded(ids: IdScheme, start: Memory, ops: seq<Op>, givenId: Option<Id>, request: Adjustment) {
    && Unrecordable(ids, Run(ids, ops), givenId, request)
    && Run(ids, ops).ledger == start.ledger && Run(ids, ops).audit == start.audit
  }

  lemma StillAfterOneMore(ids: IdScheme, start: Memory, ops: seq<Op>, givenId: Option<Id>, request: Adjustment)
    requires StillUnrecorded(ids, start, ops, givenId, request)
    ensures StillUnrecorded(ids, start, ops + [OpAddWeight(givenId, request)], givenId, request)
  {
    UnrecordedRun(ids, ops, givenId, request);
  }

  lemma {:induction false} UnrecordedStays(ids: IdScheme, start: Memory, ops: seq<Op>, givenId: Option<Id>, request: Adjustment, times: nat)
    requires StillUnrecorded(ids, start, ops, givenId, request)
    ensures StillUnrecorded(ids, start, ops + Repeated(OpAddWeight(givenId, request), times), givenId, request)
  {
    var op := OpAddWeight(givenId, request);
    if times == 0 {
      assert ops + Repeated(op, 0) == ops;
    } else {
      UnrecordedStays(ids, start, ops, givenId, request, times - 1);
      assert ops + Repeated(op, times) == ops + Repeated(op, times - 1) + [op];
      StillAfterOneMore(ids, start, ops + Repeated(op, times - 1), givenId, request);
    }
  }

  /** So many reason codes, all different from the two that are added. */
  function Codes(n: nat): (codes: set<string>)
    ensures |codes| == n && forall c | c in codes :: 1 <= |c| <= n && c[0] == 'x'
  {
    if n == 0 then {} else Codes(n - 1) + {seq(n, _ => 'x')}
  }

  /** 127 reason codes are enough: an adjustment by a tenth moves a confidence of a half to six and
      then to seven tenths, with an error reported each time and both logs empty. */
  lemma ManyReasonCodesExample(ids: IdScheme, w: WriteRequest, p: Adjustment, n: nat)
    requires WriteError(w).None? && w.confidence == 0.5 && w.candidateId == Some(7)
    requires p.candidateId == 7 && p.delta == 100000 && n == 127 && p.reasonCodes == Codes(n)
    ensures var write, adjust := OpShadowWrite([w], 0), OpAddWeight(None, p);
            var one, two := Run(ids, [write] + [adjust]), Run(ids, [write] + [adjust] + [adjust]);
            && 7 in one.cands && one.cands[7].confidence == 0.6 && 7 in two.cands && two.cands[7].confidence == 0.7
            && two.ledger == [] && two.audit == []
            && AddWeight(ids, one, None, p).verdict == Rejected(AuditRefused)
  {
    var write, adjust := OpShadowWrite([w], 0), OpAddWeight(None, p);
    UnrecordableAtStart(ids, w, p);
    TenthMore(ids, [write], p, 500000);
    TenthMore(ids, [write] + [adjust], p, 600000);
    UnrecordedCall(ids, Run(ids, [write] + [adjust]), None, p);
  }

  lemma TenthMore(ids: IdScheme, ops: seq<Op>, p: Adjustment, n: int)
    requires Unrecordable(ids, Run(ids, ops), None, p) && p.delta == 100000 && 0 <= n <= 900000
    requires Run(ids, ops).cands[p.candidateId].confidence == n as real / 1000000.0
    ensures var m := Run(ids, ops + [OpAddWeight(None, p)]);
            && Unrecordable(ids, m, None, p) && m.ledger == Run(ids, ops).ledger && m.audit == Run(ids, ops).audit
            && m.cands[p.candidateId].confidence == (n + 100000) as real / 1000000.0
  {
    UnrecordedRun(ids, ops, None, p);
    assert n as real / 1000000.0 + 100000 as real / 1000000.0 == (n + 100000) as real / 1000000.0;
    Round6Exact(n + 100000);
  }

  lemma MergedCodes(p: Adjustment)
    requires p.delta >= 0 && |p.reasonCodes| == 127 && forall c | c in p.reasonCodes :: c != [] && c[0] == 'x'
    ensures |p.reasonCodes| <= MAX_LIST_ITEMS && !Loggable(p)
  {
    var x, y := "human_weight_increase", "addweight_manual";
    assert x[0] == 'h' && y[0] == 'a';
    AddTwo(p.reasonCodes, x, y);
  }

  lemma AddTwo(s: set<string>, x: string, y: string)
    requires x !in s && y !in s && x != y
    ensures |s + {x, y}| == |s| + 2
  {
    assert s + {x, y} == s + {x} + {y};
  }

  lemma UnrecordableAtStart(ids: IdScheme, w: WriteRequest, p: Adjustment)
    requires WriteError(w).None? && w.candidateId == Some(7) && p.candidateId == 7
    requires p.delta >= 0 && |p.reasonCodes| == 127 && forall c | c in p.reasonCodes :: c != [] && c[0] == 'x'
    ensures var m := Run(ids, [OpShadowWrite([w], 0)]);
            Unrecordable(ids, m, None, p) && m.cands[7].confidence == Clamp01(w.confidence) && m.ledger == [] && m.audit == []
  {
    MergedCodes(p);
    WriteFirst(ids, w, 0);
  }

  // ----- forgetting ------------------------------------------------------------------------

  lemma LedgerForgetsIff(ledger: seq<LedgerEntry>, entry: LedgerEntry)
    requires Ordered(ledger, LedgerKey) && UniqueIds(ledger, LedgerKey) && |ledger| <= MAX_LEDGER_ENTRIES
    requires forall e | e in ledger :: e.id != entry.id
    ensures (forall e | e in Enter(ledger, entry) :: e.id != entry.id) <==>
              |ledger| == MAX_LEDGER_ENTRIES && Before(LedgerKey(entry), LedgerKey(ledger[0]))
  {
    assert Find(ledger, entry.id, LedgerKey) == -1;
    KeptUnlessFirst(ledger, entry, LedgerKey, MAX_LEDGER_ENTRIES);
    AppendMembers(ledger, entry, LedgerKey, MAX_LEDGER_ENTRIES);
  }

  lemma TrailForgetsIff(ids: IdScheme, audit: seq<AuditEvent>, event: AuditEvent, id: Id)
    requires Ordered(audit, AuditKey) && UniqueIds(audit, AuditKey) && |audit| <= MAX_AUDIT_EVENTS
    requires ids.Injective() && (forall e | e in audit :: e.id == ids.audit(e.seed)) && event.id == ids.audit(event.seed)
    requires Adjusts(event, id) && forall e | e in audit :: !Adjusts(e, id)
    ensures (forall e | e in Append(audit, event, AuditKey, MAX_AUDIT_EVENTS) :: !Adjusts(e, id)) <==>
              |audit| == MAX_AUDIT_EVENTS && Before(AuditKey(event), AuditKey(audit[0]))
  {
    assert Find(audit, event.id, AuditKey) == -1 by {
      forall e | e in audit ensures e.id != event.id {
        assert e.seed != event.seed;
      }
    }
    KeptUnlessFirst(audit, event, AuditKey, MAX_AUDIT_EVENTS);
    AppendMembers(audit, event, AuditKey, MAX_AUDIT_EVENTS);
  }

  lemma KeptUnlessFirst<T(!new)>(log: seq<T>, x: T, key: T -> Key, n: nat)
    requires Ordered(log, key) && UniqueIds(log, key) && |log| <= n && n > 0
    requires Find(log, key(x).id, key) == -1
    ensures x !in Append(log, x, key, n) <==> |log| == n && Before(key(x), key(log[0]))
  {
    AppendFresh(log, x, key, n);
    if |log| == n {
      assert forall y | y in log :: key(y).id != key(x).id;
      if Before(key(x), key(log[0])) {
        FirstIsCut(log, x, key);
      } else {
        OtherIsKept(log, x, key);
      }
    }
  }

  lemma FirstIsCut<T(!new)>(log: seq<T>, x: T, key: T -> Key)
    requires Ordered(log, key) && log != [] && Before(key(x), key(log[0]))
    ensures Last(Insert(log, x, key), |log|) == log
  {
    forall y | y in log ensures Before(key(x), key(y)) {
      var i :| 0 <= i < |log| && log[i] == y;
      assert i > 0 ==> Before(key(log[0]), key(log[i]));
    }
    InsertFirst(log, x, key);
  }

  lemma OtherIsKept<T(!new)>(log: seq<T>, x: T, key: T -> Key)
    requires Ordered(Insert(log, x, key), key) && log != [] && !Before(key(x), key(log[0]))
    requires key(log[0]).id != key(x).id
    ensures x in Last(Insert(log, x, key), |log|)
  {
    var all := Insert(log, x, key);
    assert x in all && log[0] in log && log[0] in all;
    var i :| 0 <= i < |all| && all[i] == log[0];
    var j :| 0 <= j < |all| && all[j] == x;
    assert j == 0 ==> i == 0;
    assert Last(all, |log|)[j - 1] == x;
  }

  // ----- the audit trail over runs ---------------------------------------------------------

  /** The audit event one step appends, if any. */
  ghost function EventOf(ids: IdScheme, m: Memory, op: Op): Option<AuditEvent> {
    if op.OpAudit? && |op.reasons| <= MAX_LIST_ITEMS then Some(PlainEvent(ids, op))
    else if op.OpAddWeight? && op.payload.candidateId in m.cands
         && AddWeight(ids, m, op.adjustmentId, op.payload).verdict == Applied
    then Some(WeightEvent(ids, m, AdjustmentId(ids, op.adjustmentId, op.payload), Normalized(op.payload)))
    else None
  }

  /** The audit events a run has appended. */
  ghost function AuditHistory(ids: IdScheme, ops: seq<Op>): seq<AuditEvent> {
    if ops == [] then []
    else AuditHistory(ids, ops[..|ops| - 1]) + AsList(EventOf(ids, Run(ids, ops[..|ops| - 1]), ops[|ops| - 1]))
  }

  lemma AddWeightTrail(ids: IdScheme, m: Memory, givenId: Option<Id>, request: Adjustment)
    ensures var n := AddWeight(ids, m, givenId, request);
            if n.verdict == Applied then
              request.candidateId in m.cands
              && n.memory.audit == Append(m.audit, WeightEvent(ids, m, AdjustmentId(ids, givenId, request), Normalized(request)),
                                          AuditKey, MAX_AUDIT_EVENTS)
            else n.memory.audit == m.audit
  {
    AddWeightResult(ids, m, givenId, request);
  }

  lemma StepTrail(ids: IdScheme, m: Memory, op: Op)
    ensures Step(ids, m, op).memory.audit ==
            if EventOf(ids, m, op).Some? then Append(m.audit, EventOf(ids, m, op).value, AuditKey, MAX_AUDIT_EVENTS)
            else m.audit
  {
    if op.OpAddWeight? {
      AddWeightTrail(ids, m, op.adjustmentId, op.payload);
    } else if !op.OpAudit? {
      StepKeepsLogs(ids, m, op);
    }
  }

  lemma LogOfSnoc(history: seq<AuditEvent>, e: AuditEvent)
    ensures LogOf(history + [e], AuditKey, MAX_AUDIT_EVENTS) ==
            Append(LogOf(history, AuditKey, MAX_AUDIT_EVENTS), e, AuditKey, MAX_AUDIT_EVENTS)
  {
  }

  lemma {:induction false} HistoryIdsDerived(ids: IdScheme, ops: seq<Op>)
    ensures forall e | e in AuditHistory(ids, ops) :: e.id == ids.audit(e.seed)
  {
    if ops != [] {
      HistoryIdsDerived(ids, ops[..|ops| - 1]);
    }
  }

  lemma {:induction false} RunAuditIsLog(ids: IdScheme, ops: seq<Op>)
    ensures Run(ids, ops).audit == LogOf(AuditHistory(ids, ops), AuditKey, MAX_AUDIT_EVENTS)
  {
    if ops != [] {
      var front, op := ops[..|ops| - 1], ops[|ops| - 1];
      RunAuditIsLog(ids, front);
      StepTrail(ids, Run(ids, front), op);
      var event := EventOf(ids, Run(ids, front), op);
      if event.Some? {
        LogOfSnoc(AuditHistory(ids, front), event.value);
      } else {
        assert AuditHistory(ids, ops) == AuditHistory(ids, front);
      }
    }
  }

  /** In every reachable state the trail is the sorted history of distinct events, cut to its
      2048 greatest. */
  lemma AuditTrailIsGreatestOfHistory(ids: IdScheme, ops: seq<Op>)
    requires ids.Injective()
    ensures Run(ids, ops).audit == Last(Sort(Distinct(AuditHistory(ids, ops), AuditKey), AuditKey), 2048)
  {
    RunAuditIsLog(ids, ops);
    HistoryIdsDerived(ids, ops);
    LogIsGreatestOfHistory(AuditHistory(ids, ops), AuditKey, MAX_AUDIT_EVENTS);
  }
}
