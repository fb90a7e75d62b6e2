/** Candidates and the rulebook agree in every reachable state. */
module RuleLinks {
  import opened Timeline
  import opened Lifecycle

  ghost predicate Keyed(m: Memory) {
    forall id | id in m.cands :: m.cands[id].id == id
  }

  /** No two candidates share a rule id. */
  ghost predicate OwnRuleIds(m: Memory) {
    forall a, b | a in m.cands && b in m.cands && m.cands[a].ruleId == m.cands[b].ruleId :: a == b
  }

  ghost predicate PromotedHaveRules(m: Memory) {
    forall id {:trigger HasRule(m.rules, m.cands[id].ruleId)} |
      id in m.cands && m.cands[id].status == Promoted :: HasRule(m.rules, m.cands[id].ruleId)
  }

  ghost predicate BelongsToPromoted(m: Memory, r: Rule) {
    r.origin.PromotedFrom? ==>
      && r.origin.candidateId in m.cands
      && m.cands[r.origin.candidateId].status == Promoted
      && m.cands[r.origin.candidateId].ruleId == r.ruleId
  }

  ghost predicate RulesHavePromoted(m: Memory) {
    forall r | r in m.rules :: BelongsToPromoted(m, r)
  }

  ghost predicate Linked(m: Memory) {
    && Keyed(m)
    && UniqueIds(m.rules, RuleKey)
    && OwnRuleIds(m)
    && PromotedHaveRules(m)
    && RulesHavePromoted(m)
  }

  // ----- demotions -------------------------------------------------------------------------

  lemma {:induction false} WithoutRulesUnique(rules: seq<Rule>, ids: set<Id>)
    requires UniqueIds(rules, RuleKey)
    ensures UniqueIds(WithoutRules(rules, ids), RuleKey)
  {
    if rules != [] {
      TailUnique(rules);
      WithoutRulesUnique(rules[1..], ids);
      if rules[0].ruleId !in ids {
        ConsUnique(rules[0], WithoutRules(rules[1..], ids));
      }
    }
  }

  lemma TailUnique(rules: seq<Rule>)
    requires UniqueIds(rules, RuleKey) && rules != []
    ensures UniqueIds(rules[1..], RuleKey) && forall r | r in rules[1..] :: r.ruleId != rules[0].ruleId
  {
    assert forall i, j | 0 <= i < j < |rules[1..]| :: rules[1..][i] == rules[i + 1] && rules[1..][j] == rules[j + 1];
  }

  lemma ConsUnique(r: Rule, rules: seq<Rule>)
    requires UniqueIds(rules, RuleKey) && forall q | q in rules :: q.ruleId != r.ruleId
    ensures UniqueIds([r] + rules, RuleKey)
  {
    assert forall i | 0 <= i < |rules| :: rules[i] in rules;
  }

  /** Dropping rules no promoted candidate is left to own keeps the links. */
  lemma DropKeepsLinks(m: Memory, cands: map<Id, Candidate>, ids: set<Id>)
    requires Linked(m) && cands.Keys == m.cands.Keys
    requires forall id | id in cands ::
               && cands[id].id == id && cands[id].ruleId == m.cands[id].ruleId
               && (cands[id].status == Promoted <==> m.cands[id].status == Promoted && cands[id].ruleId !in ids)
    ensures Linked(m.(cands := cands, rules := WithoutRules(m.rules, ids)))
  {
    var n := m.(cands := cands, rules := WithoutRules(m.rules, ids));
    WithoutRulesUnique(m.rules, ids);
    forall id | id in cands && cands[id].status == Promoted
      ensures HasRule(n.rules, cands[id].ruleId)
    {
      assert HasRule(m.rules, m.cands[id].ruleId);
      var r :| r in m.rules && r.ruleId == m.cands[id].ruleId;
      assert r in n.rules;
    }
    forall r | r in n.rules ensures BelongsToPromoted(n, r) {
      assert BelongsToPromoted(m, r);
    }
  }

  lemma DemoteAllKeepsLinks(m: Memory, targets: set<Id>, at: Time, reasons: set<string>)
    requires Linked(m)
    ensures Linked(DemoteAll(m, targets, at, reasons))
  {
    var n := DemoteAll(m, targets, at, reasons);
    DropKeepsLinks(m, n.cands, RuleIdsOf(m, Demotable(m, targets)));
  }

  lemma DemoteKeepsLinks(m: Memory, candidateId: Id, at: Time, threshold: int, force: bool, reasons: set<string>)
    requires Linked(m)
    ensures Linked(Demote(m, candidateId, at, threshold, force, reasons).memory)
  {
    if candidateId in m.cands {
      DemoteAllKeepsLinks(m, {candidateId}, at, DemoteReasons(m.cands[candidateId], threshold, force, reasons));
    }
  }

  lemma QuarantineKeepsLinks(m: Memory, ruleIds: seq<Id>, candidateIds: seq<Id>, at: Time, reasons: set<string>)
    requires Linked(m)
    ensures Linked(Quarantine(m, ruleIds, candidateIds, at, reasons))
  {
    var d := DemoteAll(m, Targets(m, ruleIds, candidateIds), at, reasons);
    DemoteAllKeepsLinks(m, Targets(m, ruleIds, candidateIds), at, reasons);
    DropKeepsLinks(d, d.cands, set id | id in ruleIds);
  }

  lemma TickKeepsLinks(m: Memory, at: Time)
    requires Linked(m)
    ensures Linked(Tick(m, at))
  {
    DropKeepsLinks(m, Tick(m, at).cands, RuleIdsOf(m, Expiring(m, at)));
  }

  // ----- operations that leave statuses and rule ids alone ---------------------------------

  /** Rules may change in place, and curated rules may replace others, as long as every rule id
      survives and no rule claims a candidate it did not belong to. */
  lemma ReshapeKeepsLinks(m: Memory, n: Memory)
    requires Linked(m) && Keyed(n) && UniqueIds(n.rules, RuleKey)
    requires n.cands.Keys == m.cands.Keys
    requires forall id | id in m.cands ::
               n.cands[id].ruleId == m.cands[id].ruleId && n.cands[id].status == m.cands[id].status
    requires forall r | r in m.rules :: HasRule(n.rules, r.ruleId)
    requires forall r | r in n.rules && r.origin.PromotedFrom? ::
               exists q :: q in m.rules && q.ruleId == r.ruleId && q.origin == r.origin
    ensures Linked(n)
  {
    forall id | id in n.cands && n.cands[id].status == Promoted
      ensures HasRule(n.rules, n.cands[id].ruleId)
    {
      assert HasRule(m.rules, m.cands[id].ruleId);
    }
    forall r | r in n.rules && r.origin.PromotedFrom? ensures BelongsToPromoted(n, r) {
      var q :| q in m.rules && q.ruleId == r.ruleId && q.origin == r.origin;
      assert BelongsToPromoted(m, q);
    }
  }

  /** The common case: candidate by candidate and rule by rule, ids, statuses and origins stay. */
  ghost predicate SameShape(m: Memory, n: Memory) {
    && n.cands.Keys == m.cands.Keys
    && (forall id | id in m.cands ::
          && n.cands[id].id == m.cands[id].id && n.cands[id].ruleId == m.cands[id].ruleId
          && n.cands[id].status == m.cands[id].status)
    && |n.rules| == |m.rules|
    && forall i | 0 <= i < |m.rules| ::
         n.rules[i].ruleId == m.rules[i].ruleId && n.rules[i].origin == m.rules[i].origin
  }

  lemma SameShapeKeepsLinks(m: Memory, n: Memory)
    requires Linked(m) && SameShape(m, n)
    ensures Linked(n)
  {
    forall r | r in m.rules ensures HasRule(n.rules, r.ruleId) {
      var i :| 0 <= i < |m.rules| && m.rules[i] == r;
      assert n.rules[i] in n.rules;
    }
    forall r | r in n.rules
      ensures exists q :: q in m.rules && q.ruleId == r.ruleId && q.origin == r.origin
    {
      var i :| 0 <= i < |n.rules| && n.rules[i] == r;
      assert m.rules[i] in m.rules;
    }
    ReshapeKeepsLinks(m, n);
  }

  lemma RecordShape(m: Memory, e: Evaluation)
    requires Keyed(m) && e.seed.candidateId in m.cands
    ensures SameShape(m, Record(m, e))
  {
  }

  lemma ReplayEvalKeepsLinks(ids: IdScheme, m: Memory, q: EvalRequest)
    requires Linked(m)
    ensures Linked(ReplayEval(ids, m, q).memory)
  {
    if q.candidateId in m.cands {
      var recorded := Record(m, Evaluate(ids, q));
      RecordShape(m, Evaluate(ids, q));
      SameShapeKeepsLinks(m, recorded);
      DemoteAllKeepsLinks(recorded, {q.candidateId}, q.at, {"sustained_negative_net_value"});
    }
  }

  lemma WeighedShape(m: Memory, adjustmentId: Id, p: Adjustment)
    requires p.candidateId in m.cands
    ensures SameShape(m, Weighed(m, adjustmentId, p))
  {
  }

  lemma SameRecordsSameShape(m: Memory, n: Memory, o: Memory)
    requires SameShape(m, n) && n.cands == o.cands && n.rules == o.rules
    ensures SameShape(m, o)
  {
  }

  lemma AddWeightShape(ids: IdScheme, m: Memory, givenId: Option<Id>, request: Adjustment)
    ensures SameShape(m, AddWeight(ids, m, givenId, request).memory)
  {
    AddWeightCases(ids, m, givenId, request);
    var n, p, id := AddWeight(ids, m, givenId, request), Normalized(request), AdjustmentId(ids, givenId, request);
    if Wrote(n.verdict) {
      WeighedShape(m, id, p);
      SameRecordsSameShape(m, Weighed(m, id, p), n.memory);
    } else {
      SameRecordsSameShape(m, m, n.memory);
    }
  }

  lemma AddWeightKeepsLinks(ids: IdScheme, m: Memory, givenId: Option<Id>, p: Adjustment)
    requires Linked(m)
    ensures Linked(AddWeight(ids, m, givenId, p).memory)
  {
    AddWeightShape(ids, m, givenId, p);
    SameShapeKeepsLinks(m, AddWeight(ids, m, givenId, p).memory);
  }

  lemma UtilityShape(m: Memory, ruleIds: seq<Id>, candidateIds: seq<Id>, signalId: Id, delta: real, at: Time)
    ensures SameShape(m, ApplyUtility(m, ruleIds, candidateIds, signalId, delta, at))
  {
  }

  lemma FeedbackKeepsLinks(m: Memory, f: FeedbackRecord)
    requires Linked(m)
    ensures Linked(Feedback(m, f).memory)
  {
    var stored := m.(feedback := m.feedback[f.id := f]);
    var ruleIds, candidateIds := AsList(f.ruleId), AsList(f.candidateId);
    var delta := if f.harmful then -0.18 else 0.12;
    var signalled := ApplyUtility(stored, ruleIds, candidateIds, f.id, delta, f.at);
    UtilityShape(stored, ruleIds, candidateIds, f.id, delta, f.at);
    assert SameShape(m, stored);
    SameShapeKeepsLinks(m, stored);
    SameShapeKeepsLinks(stored, signalled);
    DemoteAllKeepsLinks(signalled, Targets(signalled, ruleIds, candidateIds), f.at, {"explicit_harmful_feedback"});
  }

  lemma OutcomeKeepsLinks(m: Memory, o: OutcomeRecord)
    requires Linked(m)
    ensures Linked(Outcome(m, o).memory)
  {
    var stored := m.(outcomes := m.outcomes[o.id := o]);
    UtilityShape(stored, o.usedRuleIds, [], o.id, if o.failure then -0.2 else 0.08, o.at);
    assert SameShape(m, Outcome(m, o).memory);
    SameShapeKeepsLinks(m, Outcome(m, o).memory);
  }

  // ----- curation --------------------------------------------------------------------------

  lemma {:induction false} CurateEachMembers(rules: seq<Rule>, winners: seq<Winner>, at: Time)
    requires UniqueIds(rules, RuleKey)
    ensures UniqueIds(CurateEach(rules, winners, at), RuleKey)
    ensures forall r | r in rules :: HasRule(CurateEach(rules, winners, at), r.ruleId)
    ensures forall r | r in CurateEach(rules, winners, at) && r.origin.PromotedFrom? :: r in rules
  {
    if winners != [] {
      var front, w := winners[..|winners| - 1], winners[|winners| - 1];
      CurateEachMembers(rules, front, at);
      var before := CurateEach(rules, front, at);
      PutMembers(before, CuratedRule(w, at), RuleKey);
      var after := CurateEach(rules, winners, at);
      forall r | r in rules ensures HasRule(after, r.ruleId) {
        var q :| q in before && q.ruleId == r.ruleId;
        assert q in after || CuratedRule(w, at) in after;
      }
    }
  }

  lemma CurateKeepsLinks(m: Memory, winners: seq<Winner>, at: Time)
    requires Linked(m)
    ensures Linked(Curate(m, winners, at))
  {
    var n := Curate(m, winners, at);
    var each := CurateEach(m.rules, winners, at);
    CurateEachMembers(m.rules, winners, at);
    SortUnique(each, RuleKey);
    forall r | r in m.rules ensures HasRule(n.rules, r.ruleId) {
      var q :| q in each && q.ruleId == r.ruleId;
      assert q in n.rules;
    }
    ReshapeKeepsLinks(m, n);
  }

  // ----- promotion -------------------------------------------------------------------------

  /** Promoting a candidate together with its rule. */
  lemma PromoteOneKeepsLinks(m: Memory, id: Id, c: Candidate, r: Rule)
    requires Linked(m) && id in m.cands
    requires c.id == id && c.ruleId == m.cands[id].ruleId && c.status == Promoted
    requires r.ruleId == c.ruleId && r.origin.PromotedFrom? && r.origin.candidateId == id
    ensures Linked(m.(cands := m.cands[id := c], rules := Put(m.rules, r, RuleKey)))
  {
    var n := m.(cands := m.cands[id := c], rules := Put(m.rules, r, RuleKey));
    PutMembers(m.rules, r, RuleKey);
    forall k | k in n.cands && n.cands[k].status == Promoted
      ensures HasRule(n.rules, n.cands[k].ruleId)
    {
      if k != id {
        assert HasRule(m.rules, m.cands[k].ruleId);
        var q :| q in m.rules && q.ruleId == m.cands[k].ruleId;
        assert q in n.rules;
      } else {
        assert r in n.rules;
      }
    }
    forall q | q in n.rules ensures BelongsToPromoted(n, q) {
      assert q == r || BelongsToPromoted(m, q);
    }
  }

  lemma PromoteKeepsLinks(m: Memory, candidateId: Id, at: Time, window: int)
    requires Linked(m)
    ensures Linked(Promote(m, candidateId, at, window).memory)
  {
    var reply := Promote(m, candidateId, at, window);
    if reply.verdict == Applied {
      var c := m.cands[candidateId];
      var e := GateEvaluation(m.evals, c).value;
      PromoteOneKeepsLinks(m, candidateId, PromotedCandidate(c, e, at), PromotedRule(c, e, at));
    }
  }

  lemma {:induction false} OverrideEachKeepsLinks(m: Memory, ids: seq<Id>, at: Time)
    requires Linked(m)
    ensures Linked(OverrideEach(m, ids, at))
  {
    if ids != [] {
      var id := ids[|ids| - 1];
      OverrideEachKeepsLinks(m, ids[..|ids| - 1], at);
      var before := OverrideEach(m, ids[..|ids| - 1], at);
      if id in before.cands {
        var c := OverriddenCandidate(before.cands[id], at);
        PromoteOneKeepsLinks(before, id, c, OverrideRule(c, at));
      }
    }
  }

  lemma OverrideKeepsLinks(m: Memory, ruleIds: seq<Id>, candidateIds: seq<Id>, at: Time)
    requires Linked(m)
    ensures Linked(Override(m, ruleIds, candidateIds, at))
  {
    var targets := Listed(Targets(m, ruleIds, candidateIds));
    OverrideEachKeepsLinks(m, targets, at);
    var done := OverrideEach(m, targets, at);
    SortUnique(done.rules, RuleKey);
    var n := done.(rules := Sort(done.rules, RuleKey));
    forall r | r in done.rules ensures HasRule(n.rules, r.ruleId) {
      assert r in n.rules;
    }
    ReshapeKeepsLinks(done, n);
  }

  // ----- shadow_write ----------------------------------------------------------------------

  /** What a caller can check before writing a candidate: its rule id is not another candidate's,
      and a promoted candidate keeps its rule id unless a rule already stands under the new one
      and none was promoted from it. */
  ghost predicate WriteSafe(m: Memory, incoming: Candidate) {
    && (forall id | id in m.cands && m.cands[id].ruleId == incoming.ruleId :: id == incoming.id)
    && (incoming.id in m.cands && m.cands[incoming.id].status == Promoted
        && m.cands[incoming.id].ruleId != incoming.ruleId ==>
          && HasRule(m.rules, incoming.ruleId)
          && forall r | r in m.rules && r.origin.PromotedFrom? :: r.origin.candidateId != incoming.id)
  }

  /** A write keeps the links exactly when that holds. */
  lemma WriteOneKeepsLinksIff(m: Memory, incoming: Candidate, at: Time)
    requires Linked(m) && incoming.status == Shadow
    ensures Linked(WriteOne(m, incoming, at)) <==> WriteSafe(m, incoming)
  {
    var n := WriteOne(m, incoming, at);
    assert n.cands[incoming.id].ruleId == incoming.ruleId;
    if WriteSafe(m, incoming) {
      forall id | id in n.cands && n.cands[id].status == Promoted
        ensures HasRule(n.rules, n.cands[id].ruleId)
      {
        assert HasRule(m.rules, m.cands[id].ruleId);
      }
      forall r | r in n.rules ensures BelongsToPromoted(n, r) {
        assert BelongsToPromoted(m, r);
      }
    }
    if Linked(n) {
      assert forall id | id in m.cands && m.cands[id].ruleId == incoming.ruleId :: id in n.cands;
      if incoming.id in m.cands && m.cands[incoming.id].status == Promoted
         && m.cands[incoming.id].ruleId != incoming.ruleId {
        assert HasRule(n.rules, incoming.ruleId);
        forall r | r in m.rules && r.origin.PromotedFrom? ensures r.origin.candidateId != incoming.id {
          assert BelongsToPromoted(m, r) && BelongsToPromoted(n, r);
        }
      }
    }
  }

  /** With ids given by the caller the links can break: promote a candidate, then write it again
      under another rule id. */
  lemma SuppliedRuleIdBreaksLinks(m: Memory, incoming: Candidate, at: Time)
    requires Linked(m) && incoming.status == Shadow
    requires incoming.id in m.cands && m.cands[incoming.id].status == Promoted
    requires incoming.ruleId != m.cands[incoming.id].ruleId && !HasRule(m.rules, incoming.ruleId)
    ensures !Linked(WriteOne(m, incoming, at))
  {
    WriteOneKeepsLinksIff(m, incoming, at);
  }

  lemma RunSnoc(ids: IdScheme, ops: seq<Op>, op: Op)
    ensures Run(ids, ops + [op]) == Step(ids, Run(ids, ops), op).memory
  {
    assert (ops + [op])[..|ops|] == ops;
  }

  lemma RecordFirst(m: Memory, c: Candidate, e: Evaluation)
    requires m == EMPTY.(cands := map[c.id := c]) && e.seed.candidateId == c.id && c.streak == 0
    ensures EvalActionOf(m.evals, e) == Created
    ensures Record(m, e) == EMPTY.(cands := map[c.id := Evaluated(c, e, if e.net < 0 then 1 else 0)], evals := [e])
  {
    assert Put([], e, EvalKey) == [e];
    assert Sort([e], EvalKey) == [e] by { assert [e][..0] == []; }
  }

  /** The first evaluation of a candidate that is alone in the memory does not demote it. */
  lemma EvaluateFirst(ids: IdScheme, m: Memory, c: Candidate, q: EvalRequest)
    requires m == EMPTY.(cands := map[c.id := c]) && q.candidateId == c.id && c.streak == 0
    ensures ReplayEval(ids, m, q).memory == Record(m, Evaluate(ids, q))
  {
    RecordFirst(m, c, Evaluate(ids, q));
  }

  lemma PromoteFirst(m: Memory, c: Candidate, e: Evaluation, at: Time, window: int)
    requires m == EMPTY.(cands := map[c.id := c], evals := [e]) && c.latestEval == Some(e.id)
    requires e.pass && e.regressions == 0 && c.evidence != {} && at <= c.expiresAt && c.updatedAt == at
    ensures Promote(m, c.id, at, window).memory
            == m.(cands := map[c.id := PromotedCandidate(c, e, at)], rules := [PromotedRule(c, e, at)])
  {
    assert Find([e], e.id, EvalKey) == 0;
    assert Put([], PromotedRule(c, e, at), RuleKey) == [PromotedRule(c, e, at)];
  }

  /** Such a run: write, evaluate with success, promote, and write again with another rule id. */
  lemma SuppliedRuleIdExample(ids: IdScheme, w: WriteRequest, q: EvalRequest, again: WriteRequest, at: Time, window: int)
    requires WriteError(w).None? && WriteError(again).None?
    requires var c := NormalizeShadowCandidate(ids, w);
             && q.candidateId == c.id && q.at == at && Evaluate(ids, q).pass && at <= c.expiresAt
             && again.candidateId == Some(c.id) && again.ruleId == Some(c.ruleId + 1)
    ensures !Linked(Run(ids, [OpShadowWrite([w], at)] + [OpReplayEval(q)] + [OpPromote(q.candidateId, at, window)]
                             + [OpShadowWrite([again], at)]))
  {
    var c, e := NormalizeShadowCandidate(ids, w), Evaluate(ids, q);
    var one := [OpShadowWrite([w], at)];
    var two := one + [OpReplayEval(q)];
    var three := two + [OpPromote(q.candidateId, at, window)];
    WriteFirst(ids, w, at);
    RunSnoc(ids, one, OpReplayEval(q));
    EvaluateFirst(ids, Run(ids, one), c, q);
    RecordFirst(Run(ids, one), c, e);
    RunSnoc(ids, two, OpPromote(q.candidateId, at, window));
    PromoteFirst(Run(ids, two), Run(ids, two).cands[c.id], e, at, window);
    RunSnoc(ids, three, OpShadowWrite([again], at));
    var m, incoming := Run(ids, three), NormalizeShadowCandidate(ids, again);
    WriteOnly(ids, m, again, at);
    assert Linked(m);
    SuppliedRuleIdBreaksLinks(m, incoming, at);
  }

  ghost predicate Derived(ids: IdScheme, c: Candidate) {
    && c.id == ids.candidate(CandidateSeed(c.statement, c.scope, c.sources, c.evidence))
    && c.ruleId == ids.rule(RuleSeed(c.id, c.statement, c.scope))
  }

  ghost predicate AllDerived(ids: IdScheme, m: Memory) {
    forall id | id in m.cands :: Derived(ids, m.cands[id])
  }

  predicate DerivesIds(batch: seq<WriteRequest>) {
    forall w | w in batch :: w.candidateId == None && w.ruleId == None
  }

  lemma {:induction false} ShadowWriteKeepsLinks(ids: IdScheme, m: Memory, batch: seq<WriteRequest>, at: Time)
    requires ids.Injective() && DerivesIds(batch) && Linked(m) && AllDerived(ids, m)
    ensures Linked(ShadowWrite(ids, m, batch, at).memory) && AllDerived(ids, ShadowWrite(ids, m, batch, at).memory)
    decreases batch
  {
    if batch != [] && WriteError(batch[0]).None? {
      assert batch[0].candidateId == None && batch[0].ruleId == None;
      var incoming := NormalizeShadowCandidate(ids, batch[0]);
      assert Derived(ids, incoming);
      forall id | id in m.cands && m.cands[id].ruleId == incoming.ruleId ensures id == incoming.id {
        assert Derived(ids, m.cands[id]);
      }
      if incoming.id in m.cands {
        var c := m.cands[incoming.id];
        assert Derived(ids, c);
        assert c.sources + incoming.sources == incoming.sources && c.evidence + incoming.evidence == incoming.evidence;
      }
      WriteOneKeepsLinksIff(m, incoming, at);
      ShadowWriteKeepsLinks(ids, WriteOne(m, incoming, at), batch[1..], at);
    }
  }

  // ----- runs ------------------------------------------------------------------------------

  predicate DerivesOnly(op: Op) {
    op.OpShadowWrite? ==> DerivesIds(op.batch)
  }

  /** What the ids are derived from, and the ids. */
  predicate SameIdentity(c: Candidate, d: Candidate) {
    && c.id == d.id && c.ruleId == d.ruleId && c.statement == d.statement && c.scope == d.scope
    && c.sources == d.sources && c.evidence == d.evidence
  }

  ghost predicate SameIdentities(m: Memory, n: Memory) {
    n.cands.Keys == m.cands.Keys && forall id | id in n.cands :: SameIdentity(m.cands[id], n.cands[id])
  }

  lemma {:induction false} OverrideEachSameIdentities(m: Memory, targets: seq<Id>, at: Time)
    ensures SameIdentities(m, OverrideEach(m, targets, at))
  {
    if targets != [] {
      OverrideEachSameIdentities(m, targets[..|targets| - 1], at);
    }
  }

  lemma DemoteAllSameIdentities(m: Memory, targets: set<Id>, at: Time, reasons: set<string>)
    ensures SameIdentities(m, DemoteAll(m, targets, at, reasons))
  {
  }

  lemma RecordSameIdentities(m: Memory, e: Evaluation)
    requires e.seed.candidateId in m.cands
    ensures SameIdentities(m, Record(m, e))
  {
  }

  lemma ReplayEvalSameIdentities(ids: IdScheme, m: Memory, q: EvalRequest)
    ensures SameIdentities(m, ReplayEval(ids, m, q).memory)
  {
    if q.candidateId in m.cands {
      var recorded := Record(m, Evaluate(ids, q));
      RecordSameIdentities(m, Evaluate(ids, q));
      DemoteAllSameIdentities(recorded, {q.candidateId}, q.at, {"sustained_negative_net_value"});
    }
  }

  lemma FeedbackSameIdentities(m: Memory, f: FeedbackRecord)
    ensures SameIdentities(m, Feedback(m, f).memory)
  {
    var stored := m.(feedback := m.feedback[f.id := f]);
    var ruleIds, candidateIds := AsList(f.ruleId), AsList(f.candidateId);
    var signalled := ApplyUtility(stored, ruleIds, candidateIds, f.id, if f.harmful then -0.18 else 0.12, f.at);
    assert SameIdentities(m, signalled);
    DemoteAllSameIdentities(signalled, Targets(signalled, ruleIds, candidateIds), f.at, {"explicit_harmful_feedback"});
  }

  lemma WeighedSameIdentities(m: Memory, adjustmentId: Id, p: Adjustment)
    requires p.candidateId in m.cands
    ensures SameIdentities(m, Weighed(m, adjustmentId, p))
  {
  }

  lemma AddWeightSameIdentities(ids: IdScheme, m: Memory, givenId: Option<Id>, request: Adjustment)
    ensures SameIdentities(m, AddWeight(ids, m, givenId, request).memory)
  {
    AddWeightCases(ids, m, givenId, request);
    if Wrote(AddWeight(ids, m, givenId, request).verdict) {
      WeighedSameIdentities(m, AdjustmentId(ids, givenId, request), Normalized(request));
    }
  }

  lemma DemoteSameIdentities(m: Memory, id: Id, at: Time, threshold: int, force: bool, reasons: set<string>)
    ensures SameIdentities(m, Demote(m, id, at, threshold, force, reasons).memory)
  {
  }

  lemma PromoteSameIdentities(m: Memory, id: Id, at: Time, window: int)
    ensures SameIdentities(m, Promote(m, id, at, window).memory)
  {
  }

  lemma OutcomeSameIdentities(m: Memory, o: OutcomeRecord)
    ensures SameIdentities(m, Outcome(m, o).memory)
  {
  }

  lemma TickSameIdentities(m: Memory, at: Time)
    ensures SameIdentities(m, Tick(m, at))
  {
  }

  /** Only shadow_write touches what the ids are derived from. */
  lemma StepSameIdentities(ids: IdScheme, m: Memory, op: Op)
    requires !op.OpShadowWrite?
    ensures SameIdentities(m, Step(ids, m, op).memory)
  {
    match op
    case OpReplayEval(q) => ReplayEvalSameIdentities(ids, m, q);
    case OpPromote(id, at, window) => PromoteSameIdentities(m, id, at, window);
    case OpDemote(id, at, threshold, force, reasons) => DemoteSameIdentities(m, id, at, threshold, force, reasons);
    case OpAddWeight(adjustmentId, p) => AddWeightSameIdentities(ids, m, adjustmentId, p);
    case OpQuarantine(rs, cs, at, reasons) => DemoteAllSameIdentities(m, Targets(m, rs, cs), at, reasons);
    case OpOverride(rs, cs, at) => OverrideEachSameIdentities(m, Listed(Targets(m, rs, cs)), at);
    case OpFeedback(f) => FeedbackSameIdentities(m, f);
    case OpOutcome(o) => OutcomeSameIdentities(m, o);
    case OpCurate(winners, at) =>
    case OpTick(at) => TickSameIdentities(m, at);
    case OpAudit(_, _, _, _, _, _) =>
  }

  lemma StepKeepsLinks(ids: IdScheme, m: Memory, op: Op)
    requires ids.Injective() && DerivesOnly(op) && Linked(m) && AllDerived(ids, m)
    ensures Linked(Step(ids, m, op).memory)
  {
    match op
    case OpShadowWrite(batch, at) => ShadowWriteKeepsLinks(ids, m, batch, at);
    case OpReplayEval(q) => ReplayEvalKeepsLinks(ids, m, q);
    case OpPromote(id, at, window) => PromoteKeepsLinks(m, id, at, window);
    case OpDemote(id, at, threshold, force, reasons) => DemoteKeepsLinks(m, id, at, threshold, force, reasons);
    case OpAddWeight(adjustmentId, p) => AddWeightKeepsLinks(ids, m, adjustmentId, p);
    case OpQuarantine(rs, cs, at, reasons) => QuarantineKeepsLinks(m, rs, cs, at, reasons);
    case OpOverride(rs, cs, at) => OverrideKeepsLinks(m, rs, cs, at);
    case OpFeedback(f) => FeedbackKeepsLinks(m, f);
    case OpOutcome(o) => OutcomeKeepsLinks(m, o);
    case OpCurate(winners, at) => CurateKeepsLinks(m, winners, at);
    case OpTick(at) => TickKeepsLinks(m, at);
    case OpAudit(_, _, _, _, _, _) => SameShapeKeepsLinks(m, Step(ids, m, op).memory);
  }

  lemma StepKeepsDerived(ids: IdScheme, m: Memory, op: Op)
    requires ids.Injective() && DerivesOnly(op) && Linked(m) && AllDerived(ids, m)
    ensures AllDerived(ids, Step(ids, m, op).memory)
  {
    if op.OpShadowWrite? {
      ShadowWriteKeepsLinks(ids, m, op.batch, op.at);
    } else {
      StepSameIdentities(ids, m, op);
    }
  }

  /** With derived ids, in every reachable state: ids are unique, every promoted candidate has a
      rule under its rule id, and every rule promoted from a candidate belongs to a candidate
      that is promoted now. */
  lemma {:induction false} RunKeepsLinks(ids: IdScheme, ops: seq<Op>)
    requires ids.Injective() && forall op | op in ops :: DerivesOnly(op)
    ensures Linked(Run(ids, ops)) && AllDerived(ids, Run(ids, ops))
  {
    if ops != [] {
      RunKeepsLinks(ids, ops[..|ops| - 1]);
      StepKeepsLinks(ids, Run(ids, ops[..|ops| - 1]), ops[|ops| - 1]);
      StepKeepsDerived(ids, Run(ids, ops[..|ops| - 1]), ops[|ops| - 1]);
    }
  }
}
