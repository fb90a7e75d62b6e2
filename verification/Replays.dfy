/** What calling an operation again does, and what one operation undoes of another. */
module Replays {
  import opened Numbers
  import opened Timeline
  import opened Lifecycle
  import opened RuleLinks
  import opened BoundedLog
  import opened PromotionGate

  // ----- the same call twice ---------------------------------------------------------------

  lemma PutThere<T(!new)>(s: seq<T>, x: T, key: T -> Key)
    ensures var r := Put(s, x, key); var i := Find(r, key(x).id, key); i != -1 && r[i] == x && Put(r, x, key) == r
  {
    var r, i := Put(s, x, key), Find(s, key(x).id, key);
    FindFirst(r, if i == -1 then |s| else i, key);
  }

  lemma {:induction false} FindFirst<T(!new)>(s: seq<T>, i: nat, key: T -> Key)
    requires i < |s| && forall j | 0 <= j < i :: key(s[j]).id != key(s[i]).id
    ensures Find(s, key(s[i]).id, key) == i
  {
    if i > 0 {
      FindFirst(s[1..], i - 1, key);
    }
  }

  /** Promoting again at the same time changes nothing, not even the place of the rule. */
  lemma PromoteAgain(m: Memory, candidateId: Id, at: Time, window: int)
    requires Keyed(m) && UniqueIds(m.evals, EvalKey) && Promote(m, candidateId, at, window).verdict == Applied
    ensures Promote(Promote(m, candidateId, at, window).memory, candidateId, at, window) == Promote(m, candidateId, at, window)
  {
    var c, n := m.cands[candidateId], Promote(m, candidateId, at, window).memory;
    var e := GateEvaluation(m.evals, c).value;
    GateIsStored(m.evals, c);
    FoundUnderItsId(m.evals, e);
    AgeDaysBound(at, at);
    assert GateEvaluation(n.evals, n.cands[candidateId]) == Some(e);
    PutThere(m.rules, PromotedRule(c, e, at), RuleKey);
  }

  lemma GateIsStored(evals: seq<Evaluation>, c: Candidate)
    ensures GateEvaluation(evals, c).Some? ==> GateEvaluation(evals, c).value in evals
  {
    LastOfIsOwn(evals, c.id);
  }

  lemma FoundUnderItsId(evals: seq<Evaluation>, e: Evaluation)
    requires UniqueIds(evals, EvalKey) && e in evals
    ensures var k := Find(evals, e.id, EvalKey); k != -1 && evals[k] == e
  {
    var i :| 0 <= i < |evals| && evals[i] == e;
    FindFirst(evals, i, EvalKey);
  }

  /** The evaluation is stored and is what the candidate says of its latest. */
  ghost predicate JustRecorded(m: Memory, e: Evaluation) {
    && Ordered(m.evals, EvalKey) && UniqueIds(m.evals, EvalKey) && e in m.evals
    && e.seed.candidateId in m.cands
    && var c := m.cands[e.seed.candidateId]; c == Evaluated(c, e, c.streak)
  }

  lemma RecordAgain(m: Memory, e: Evaluation)
    requires JustRecorded(m, e)
    ensures EvalActionOf(m.evals, e) == Unchanged && Record(m, e) == m
  {
    FoundUnderItsId(m.evals, e);
    StoreAgain(m.evals, e, EvalKey);
    var c := m.cands[e.seed.candidateId];
    assert Evaluated(c, e, c.streak) == c;
  }

  lemma RecordJustRecorded(m: Memory, e: Evaluation)
    requires UniqueIds(m.evals, EvalKey) && e.seed.candidateId in m.cands
    ensures JustRecorded(Record(m, e), e)
  {
    PutMembers(m.evals, e, EvalKey);
    SortKeepsMap(Put(m.evals, e, EvalKey), EvalKey);
  }

  /** Replaying an evaluation right after it came in changes nothing, also when it demoted. */
  lemma ReplayEvalAgain(ids: IdScheme, m: Memory, q: EvalRequest)
    requires UniqueIds(m.evals, EvalKey)
    ensures var n := ReplayEval(ids, m, q).memory;
            ReplayEval(ids, n, q) == Reply(n, if q.candidateId in m.cands then Noop else Rejected(CandidateNotFound))
  {
    if q.candidateId in m.cands {
      var e := Evaluate(ids, q);
      RecordJustRecorded(m, e);
      assert JustRecorded(ReplayEval(ids, m, q).memory, e);
      RecordAgain(ReplayEval(ids, m, q).memory, e);
    }
  }

  /** Writing a stored candidate again changes nothing after the first time. */
  lemma RewriteAgain(m: Memory, incoming: Candidate, at: Time)
    requires incoming.id in m.cands
    ensures WriteOne(WriteOne(m, incoming, at), incoming, at) == WriteOne(m, incoming, at)
  {
    var c := Rewritten(m.cands[incoming.id], incoming, at);
    assert c.sources + incoming.sources == c.sources && c.evidence + incoming.evidence == c.evidence;
  }

  lemma SignalAgain(m: Memory, ruleIds: seq<Id>, candidateIds: seq<Id>, signalId: Id, delta: real, at: Time)
    ensures var n := ApplyUtility(m, ruleIds, candidateIds, signalId, delta, at);
            ApplyUtility(n, ruleIds, candidateIds, signalId, delta, at) == n
  {
    var n := ApplyUtility(m, ruleIds, candidateIds, signalId, delta, at);
    var again := ApplyUtility(n, ruleIds, candidateIds, signalId, delta, at);
    assert again.rules == n.rules;
    forall id | id in m.cands ensures again.cands[id] == n.cands[id] {
      HeardOnce(m.cands[id], ruleIds, candidateIds, signalId, delta, at);
    }
    assert again.cands == n.cands;
  }

  lemma HeardOnce(c: Candidate, ruleIds: seq<Id>, candidateIds: seq<Id>, signalId: Id, delta: real, at: Time)
    ensures var d := SignalTarget(c, ruleIds, candidateIds, signalId, delta, at);
            SignalTarget(d, ruleIds, candidateIds, signalId, delta, at) == d
  {
  }

  /** A record hears a signal again exactly when another was heard last: only the last id is kept. */
  lemma HeardAgainIff(c: Candidate, signalId: Id, otherId: Id, delta: real, otherDelta: real, at: Time)
    requires !Heard(c.utility, signalId)
    ensures var once := SignalCandidate(c, signalId, delta, at);
            var between := SignalCandidate(once, otherId, otherDelta, at);
            SignalCandidate(between, signalId, delta, at) == between <==> signalId == otherId
  {
  }

  lemma HelpfulFeedback(m: Memory, f: FeedbackRecord, c: Id, micros: int)
    requires c in m.cands && f.candidateId == Some(c) && f.ruleId == None && !f.harmful
    requires m.cands[c].id == c && !(f.id in m.feedback && m.feedback[f.id] == f) && !Heard(m.cands[c].utility, f.id)
    requires 0 <= micros <= 880000
    requires match m.cands[c].utility case None => micros == 500000 case Some(u) => u.score == micros as real / 1000000.0
    ensures var n := Feedback(m, f).memory;
            && c in n.cands && n.cands[c].id == c && n.feedback == m.feedback[f.id := f]
            && n.cands[c].utility == Some(Utility((micros + 120000) as real / 1000000.0, f.id))
  {
    assert micros as real / 1000000.0 + 0.12 == (micros + 120000) as real / 1000000.0;
    Round6Exact(micros + 120000);
  }

  /** So a feedback that is corrected after another one was heard counts twice: three calls under two
      ids lift a score of a half by three steps. */
  lemma CorrectedFeedbackCountsTwice(m: Memory, f: FeedbackRecord, other: FeedbackRecord, corrected: FeedbackRecord, c: Id)
    requires c in m.cands && m.cands[c].id == c && m.cands[c].utility == None
    requires f.id !in m.feedback && other.id !in m.feedback && corrected.id == f.id != other.id && corrected != f
    requires forall x | x in {f, other, corrected} :: x.candidateId == Some(c) && x.ruleId == None && !x.harmful
    ensures var n := Feedback(Feedback(Feedback(m, f).memory, other).memory, corrected).memory;
            c in n.cands && n.cands[c].utility == Some(Utility(0.86, f.id))
  {
    assert f in {f, other, corrected} && other in {f, other, corrected} && corrected in {f, other, corrected};
    HelpfulFeedback(m, f, c, 500000);
    HelpfulFeedback(Feedback(m, f).memory, other, c, 620000);
    HelpfulFeedback(Feedback(Feedback(m, f).memory, other).memory, corrected, c, 740000);
  }

  // ----- feedback and outcomes over runs -----------------------------------------------------

  ghost predicate RecordsKept(m: Memory, n: Memory) {
    n.feedback == m.feedback && n.outcomes == m.outcomes
  }

  lemma {:induction false} ShadowWriteKeepsRecords(ids: IdScheme, m: Memory, batch: seq<WriteRequest>, at: Time)
    ensures RecordsKept(m, ShadowWrite(ids, m, batch, at).memory)
    decreases batch
  {
    if batch != [] && WriteError(batch[0]).None? {
      ShadowWriteKeepsRecords(ids, WriteOne(m, NormalizeShadowCandidate(ids, batch[0]), at), batch[1..], at);
    }
  }

  lemma {:induction false} OverrideKeepsRecords(m: Memory, targets: seq<Id>, at: Time)
    ensures RecordsKept(m, OverrideEach(m, targets, at))
  {
    if targets != [] {
      OverrideKeepsRecords(m, targets[..|targets| - 1], at);
    }
  }

  lemma ReplayEvalKeepsRecords(ids: IdScheme, m: Memory, q: EvalRequest)
    ensures RecordsKept(m, ReplayEval(ids, m, q).memory)
  {
  }

  lemma PromoteKeepsRecords(m: Memory, id: Id, at: Time, window: int)
    ensures RecordsKept(m, Promote(m, id, at, window).memory)
  {
  }

  lemma FeedbackStores(m: Memory, f: FeedbackRecord)
    ensures Feedback(m, f).memory.feedback == m.feedback[f.id := f] && Feedback(m, f).memory.outcomes == m.outcomes
  {
    assert f.id in m.feedback && m.feedback[f.id] == f ==> m.feedback[f.id := f] == m.feedback;
  }

  lemma OutcomeStores(m: Memory, o: OutcomeRecord)
    ensures Outcome(m, o).memory.outcomes == m.outcomes[o.id := o] && Outcome(m, o).memory.feedback == m.feedback
  {
    assert o.id in m.outcomes && m.outcomes[o.id] == o ==> m.outcomes[o.id := o] == m.outcomes;
  }

  /** Nothing but feedback touches the feedback records, and nothing but outcomes theirs. */
  lemma StepKeepsRecords(ids: IdScheme, m: Memory, op: Op)
    ensures var n := Step(ids, m, op).memory;
            && n.feedback == (if op.OpFeedback? then m.feedback[op.record.id := op.record] else m.feedback)
            && n.outcomes == (if op.OpOutcome? then m.outcomes[op.outcome.id := op.outcome] else m.outcomes)
  {
    match op
    case OpShadowWrite(batch, at) => ShadowWriteKeepsRecords(ids, m, batch, at);
    case OpAddWeight(givenId, p) => AddWeightCases(ids, m, givenId, p);
    case OpOverride(rs, cs, at) => OverrideKeepsRecords(m, Listed(Targets(m, rs, cs)), at);
    case OpReplayEval(q) => ReplayEvalKeepsRecords(ids, m, q);
    case OpPromote(id, at, window) => PromoteKeepsRecords(m, id, at, window);
    case OpFeedback(f) => FeedbackStores(m, f);
    case OpOutcome(o) => OutcomeStores(m, o);
    case _ =>
  }

  /** The feedback that came last under an id. */
  function LastFeedback(ops: seq<Op>, id: Id): Option<FeedbackRecord> {
    if ops == [] then None
    else if ops[|ops| - 1].OpFeedback? && ops[|ops| - 1].record.id == id then Some(ops[|ops| - 1].record)
    else LastFeedback(ops[..|ops| - 1], id)
  }

  function LastOutcome(ops: seq<Op>, id: Id): Option<OutcomeRecord> {
    if ops == [] then None
    else if ops[|ops| - 1].OpOutcome? && ops[|ops| - 1].outcome.id == id then Some(ops[|ops| - 1].outcome)
    else LastOutcome(ops[..|ops| - 1], id)
  }

  function At<T>(records: map<Id, T>, id: Id): Option<T> { if id in records then Some(records[id]) else None }

  lemma {:induction false} LastIsStored(ids: IdScheme, ops: seq<Op>, id: Id)
    ensures At(Run(ids, ops).feedback, id) == LastFeedback(ops, id)
    ensures At(Run(ids, ops).outcomes, id) == LastOutcome(ops, id)
  {
    if ops != [] {
      LastIsStored(ids, ops[..|ops| - 1], id);
      StepKeepsRecords(ids, Run(ids, ops[..|ops| - 1]), ops[|ops| - 1]);
    }
  }

  lemma ChangesIffNew<T>(records: map<Id, T>, id: Id, x: T)
    ensures records[id := x] == records <==> At(records, id) == Some(x)
  {
    assert records[id := x][id] == x;
    assert id in records && records[id] == x ==> records[id := x] == records;
  }

  lemma FeedbackIsNewIff(m: Memory, f: FeedbackRecord)
    ensures Feedback(m, f).memory == m <==> At(m.feedback, f.id) == Some(f)
    ensures Feedback(m, f).verdict == Noop <==> At(m.feedback, f.id) == Some(f)
  {
    FeedbackStores(m, f);
    ChangesIffNew(m.feedback, f.id, f);
  }

  lemma OutcomeIsNewIff(m: Memory, o: OutcomeRecord)
    ensures Outcome(m, o).memory == m <==> At(m.outcomes, o.id) == Some(o)
    ensures Outcome(m, o).verdict == Noop <==> At(m.outcomes, o.id) == Some(o)
  {
    OutcomeStores(m, o);
    ChangesIffNew(m.outcomes, o.id, o);
  }

  /** Over any run: feedback changes nothing exactly when it came before and no other record came
      under its id since, whatever else did; if not, it is recorded. */
  lemma FeedbackAgain(ids: IdScheme, ops: seq<Op>, f: FeedbackRecord)
    ensures var m := Run(ids, ops);
            && (Feedback(m, f).memory == m <==> LastFeedback(ops, f.id) == Some(f))
            && (Feedback(m, f).verdict == Noop <==> LastFeedback(ops, f.id) == Some(f))
            && LastFeedback(ops + [OpFeedback(f)], f.id) == Some(f)
  {
    LastIsStored(ids, ops, f.id);
    FeedbackIsNewIff(Run(ids, ops), f);
  }

  /** The same holds of outcomes. */
  lemma OutcomeAgain(ids: IdScheme, ops: seq<Op>, o: OutcomeRecord)
    ensures var m := Run(ids, ops);
            && (Outcome(m, o).memory == m <==> LastOutcome(ops, o.id) == Some(o))
            && (Outcome(m, o).verdict == Noop <==> LastOutcome(ops, o.id) == Some(o))
            && LastOutcome(ops + [OpOutcome(o)], o.id) == Some(o)
  {
    LastIsStored(ids, ops, o.id);
    OutcomeIsNewIff(Run(ids, ops), o);
  }

  // ----- overrides again -------------------------------------------------------------------

  /** The candidate is promoted and its rule is the one an override at this time installs. */
  ghost predicate Overridden(m: Memory, id: Id, at: Time) {
    id in m.cands ==>
      m.cands[id].status == Promoted
      && var k := Find(m.rules, m.cands[id].ruleId, RuleKey); k != -1 && m.rules[k] == OverrideRule(m.cands[id], at)
  }

  lemma {:induction false} OverriddenStays(m: Memory, ids: seq<Id>, at: Time)
    requires forall id | id in ids :: Overridden(m, id, at)
    ensures OverrideEach(m, ids, at) == m
  {
    if ids != [] {
      var front, id := ids[..|ids| - 1], ids[|ids| - 1];
      assert id in ids && forall i | i in front :: i in ids;
      OverriddenStays(m, front, at);
      assert Overridden(m, id, at);
    }
  }

  lemma {:induction false} OverrideEachTargets(m: Memory, targets: seq<Id>, at: Time)
    requires Ascending(targets)
    ensures var n := OverrideEach(m, targets, at);
            n.cands.Keys == m.cands.Keys
            && forall id | id in targets && id in m.cands :: n.cands[id] == OverriddenCandidate(m.cands[id], at)
  {
    if targets != [] {
      var front := targets[..|targets| - 1];
      assert targets[|targets| - 1] !in front;
      OverrideEachCandidates(m, front, at);
      OverrideEachTargets(m, front, at);
    }
  }

  lemma OverriddenOnce(m: Memory, n: Memory, at: Time, id: Id)
    requires id in m.cands && id in n.cands && n.cands[id] == OverriddenCandidate(m.cands[id], at)
    requires UniqueIds(n.rules, RuleKey) && OverrideRuleFor(m, id, at) in n.rules
    ensures Overridden(n, id, at)
  {
    var r := OverrideRuleFor(m, id, at);
    var i :| 0 <= i < |n.rules| && n.rules[i] == r;
    FindFirst(n.rules, i, RuleKey);
  }

  /** Overriding the same targets again at the same time changes nothing. */
  lemma OverrideAgain(m: Memory, ruleIds: seq<Id>, candidateIds: seq<Id>, at: Time)
    requires Linked(m)
    ensures var n := Override(m, ruleIds, candidateIds, at); Override(n, ruleIds, candidateIds, at) == n
  {
    var targets := Listed(Targets(m, ruleIds, candidateIds));
    var done, n := OverrideEach(m, targets, at), Override(m, ruleIds, candidateIds, at);
    OverrideEachRules(m, targets, at);
    OverrideEachTargets(m, targets, at);
    OverrideEachSameIdentities(m, targets, at);
    SortKeepsMap(done.rules, RuleKey);
    assert Targets(n, ruleIds, candidateIds) == Targets(m, ruleIds, candidateIds);
    forall id | id in targets ensures Overridden(n, id, at) {
      if id in m.cands {
        OverriddenOnce(m, n, at, id);
      }
    }
    OverriddenStays(n, targets, at);
    SortOfOrdered(n.rules, RuleKey);
  }

  // ----- what a demotion and an opposite adjustment undo --------------------------------------

  lemma {:induction false} WithoutAdded(rules: seq<Rule>, r: Rule)
    requires !HasRule(rules, r.ruleId)
    ensures WithoutRules(rules + [r], {r.ruleId}) == rules
  {
    if rules == [] {
      assert rules + [r] == [r];
      assert WithoutRules([r], {r.ruleId}) == [];
    } else {
      assert rules[0] in rules && forall q | q in rules[1..] :: q in rules;
      WithoutAdded(rules[1..], r);
      assert (rules + [r])[1..] == rules[1..] + [r];
    }
  }

  lemma PromotionAddsRule(m: Memory, candidateId: Id, at: Time, window: int) returns (r: Rule)
    requires Promote(m, candidateId, at, window).verdict == Applied && !HasRule(m.rules, m.cands[candidateId].ruleId)
    ensures r.ruleId == m.cands[candidateId].ruleId && Promote(m, candidateId, at, window).memory.rules == m.rules + [r]
  {
    var c := m.cands[candidateId];
    r := PromotedRule(c, GateEvaluation(m.evals, c).value, at);
    assert forall q | q in m.rules :: q.ruleId != r.ruleId;
    assert Find(m.rules, r.ruleId, RuleKey) == -1;
  }

  /** Demoting a candidate after its promotion puts the rulebook back as it was, when there was no
      rule under its id, and touches no other candidate. */
  lemma DemoteUndoesPromote(m: Memory, candidateId: Id, at: Time, window: int, laterAt: Time, reasons: set<string>)
    requires Keyed(m) && Promote(m, candidateId, at, window).verdict == Applied
    requires !HasRule(m.rules, m.cands[candidateId].ruleId)
    ensures var n := Demote(Promote(m, candidateId, at, window).memory, candidateId, laterAt, 0, true, reasons).memory;
            && n.rules == m.rules && n.cands.Keys == m.cands.Keys
            && n.cands[candidateId].status == Demoted
            && forall id | id in m.cands && id != candidateId :: n.cands[id] == m.cands[id]
  {
    var promoted := Promote(m, candidateId, at, window).memory;
    var r := PromotionAddsRule(m, candidateId, at, window);
    WithoutAdded(m.rules, r);
    assert Demotable(promoted, {candidateId}) == {candidateId};
    assert RuleIdsOf(promoted, {candidateId}) == {r.ruleId};
  }

  /** A confidence that is a whole number of millionths. */
  predicate Whole(c: Candidate, n: int) { c.confidence == n as real / 1000000.0 && 0 <= n <= 1000000 }

  lemma ReweightedWhole(c: Candidate, n: int, id: Id, p: Adjustment)
    requires Whole(c, n)
    ensures Whole(Reweighted(c, id, p), Max(0, Min(1000000, n + p.delta)))
  {
    var k := Max(0, Min(1000000, n + p.delta));
    assert n as real / 1000000.0 + p.delta as real / 1000000.0 == (n + p.delta) as real / 1000000.0;
    Round6Exact(k);
  }

  /** An adjustment and its opposite cancel exactly when the first was not cut off at zero or one. */
  lemma OppositeCancelsIff(c: Candidate, n: int, id: Id, p: Adjustment, otherId: Id, opposite: Adjustment)
    requires Whole(c, n) && -1000000 <= p.delta <= 1000000 && opposite.delta == -p.delta
    ensures Reweighted(Reweighted(c, id, p), otherId, opposite).confidence == c.confidence <==> 0 <= n + p.delta <= 1000000
  {
    ReweightedWhole(c, n, id, p);
    var k := Max(0, Min(1000000, n + p.delta));
    ReweightedWhole(Reweighted(c, id, p), k, otherId, opposite);
    var back := Max(0, Min(1000000, k - p.delta));
    assert back as real / 1000000.0 == n as real / 1000000.0 <==> back == n;
  }

  /** A promoted candidate's rule follows its confidence: after an adjustment both carry the same. */
  lemma RuleFollowsAdjustment(ids: IdScheme, m: Memory, givenId: Option<Id>, request: Adjustment)
    requires Linked(m) && Wrote(AddWeight(ids, m, givenId, request).verdict)
    requires request.candidateId in m.cands && m.cands[request.candidateId].status == Promoted
    ensures var n := AddWeight(ids, m, givenId, request).memory;
            var k := Find(n.rules, n.cands[request.candidateId].ruleId, RuleKey);
            k != -1 && n.rules[k].confidence == n.cands[request.candidateId].confidence
            && |n.rules| == |m.rules| && (forall i | 0 <= i < |m.rules| && i != k :: n.rules[i] == m.rules[i])
            && forall id | id in m.cands && id != request.candidateId :: n.cands[id] == m.cands[id]
  {
    AddWeightCases(ids, m, givenId, request);
    WeighedRule(m, AdjustmentId(ids, givenId, request), Normalized(request));
  }

  lemma WeighedRule(m: Memory, adjustmentId: Id, p: Adjustment)
    requires Linked(m) && p.candidateId in m.cands && m.cands[p.candidateId].status == Promoted
    ensures var n := Weighed(m, adjustmentId, p);
            var k := Find(n.rules, n.cands[p.candidateId].ruleId, RuleKey);
            k != -1 && n.rules[k].confidence == n.cands[p.candidateId].confidence
            && |n.rules| == |m.rules| && forall i | 0 <= i < |m.rules| && i != k :: n.rules[i] == m.rules[i]
  {
    var c, n := m.cands[p.candidateId], Weighed(m, adjustmentId, p);
    assert HasRule(m.rules, c.ruleId);
    var k := Find(m.rules, c.ruleId, RuleKey);
    assert k != -1;
    FindFirst(n.rules, k, RuleKey);
  }
}
