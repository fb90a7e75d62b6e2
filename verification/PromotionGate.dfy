/** Every rule that was promoted from a candidate names an evaluation that let it pass. */
module PromotionGate {
  import opened Timeline
  import opened Lifecycle
  import opened RuleLinks

  /** An evaluation that says what its seed implies. */
  ghost predicate Honest(e: Evaluation) {
    && e.net == NetValue(e.seed.metrics, e.seed.canary)
    && e.regressions == Regressions(e.seed.metrics, e.seed.canary, e.seed.replayLimit, e.seed.canaryLimit)
    && (e.pass <==> e.regressions == 0 && e.net >= e.seed.gate)
  }

  ghost predicate HasEvaluation(evals: seq<Evaluation>, evalId: Id, candidateId: Id, mustPass: bool) {
    exists e :: e in evals && e.id == evalId && e.seed.candidateId == candidateId && (mustPass ==> e.pass)
  }

  ghost predicate LatestIsOwn(m: Memory) {
    forall id | id in m.cands && m.cands[id].latestEval.Some? ::
      HasEvaluation(m.evals, m.cands[id].latestEval.value, id, false)
  }

  ghost predicate PassedGate(evals: seq<Evaluation>, r: Rule) {
    r.origin.PromotedFrom? ==>
      r.origin.evalId.Some? && HasEvaluation(evals, r.origin.evalId.value, r.origin.candidateId, true)
  }

  /** The gate holds: verdicts follow the metrics, candidates name their own evaluations, and every
      promoted rule stands on one that passed. */
  ghost predicate Gated(m: Memory) {
    && Keyed(m)
    && UniqueIds(m.rules, RuleKey)
    && UniqueIds(m.evals, EvalKey)
    && (forall e | e in m.evals :: Honest(e))
    && LatestIsOwn(m)
    && (forall r | r in m.rules :: PassedGate(m.evals, r))
  }

  /** Evaluations stay, no candidate is pointed at another evaluation and no rule gets a new
      origin in a candidate. */
  ghost predicate GateUntouched(m: Memory, n: Memory) {
    && n.evals == m.evals
    && UniqueIds(n.rules, RuleKey)
    && (forall id | id in n.cands ::
          && n.cands[id].id == id
          && (n.cands[id].latestEval == None
              || (id in m.cands && n.cands[id].latestEval == m.cands[id].latestEval)))
    && forall r | r in n.rules && r.origin.PromotedFrom? :: exists q :: q in m.rules && q.origin == r.origin
  }

  lemma UntouchedKeepsGate(m: Memory, n: Memory)
    requires Gated(m) && GateUntouched(m, n)
    ensures Gated(n)
  {
  }

  lemma UntouchedChains(m: Memory, n: Memory, o: Memory)
    requires GateUntouched(m, n) && GateUntouched(n, o)
    ensures GateUntouched(m, o)
  {
    forall r | r in o.rules && r.origin.PromotedFrom? ensures exists q :: q in m.rules && q.origin == r.origin {
      var p :| p in n.rules && p.origin == r.origin;
    }
  }

  lemma DemoteAllUntouched(m: Memory, targets: set<Id>, at: Time, reasons: set<string>)
    requires Keyed(m) && UniqueIds(m.rules, RuleKey)
    ensures GateUntouched(m, DemoteAll(m, targets, at, reasons))
  {
    WithoutRulesUnique(m.rules, RuleIdsOf(m, Demotable(m, targets)));
  }

  lemma SameRulesUntouched(m: Memory, n: Memory)
    requires UniqueIds(m.rules, RuleKey) && n.evals == m.evals
    requires |n.rules| == |m.rules|
    requires forall i | 0 <= i < |m.rules| ::
               n.rules[i].ruleId == m.rules[i].ruleId && n.rules[i].origin == m.rules[i].origin
    requires forall id | id in n.cands ::
               n.cands[id].id == id && id in m.cands && n.cands[id].latestEval == m.cands[id].latestEval
    ensures GateUntouched(m, n)
  {
  }

  // ----- replay_eval -----------------------------------------------------------------------

  lemma StoredMembers(evals: seq<Evaluation>, e: Evaluation)
    requires UniqueIds(evals, EvalKey)
    ensures UniqueIds(Sort(Put(evals, e, EvalKey), EvalKey), EvalKey)
    ensures forall x :: x in Sort(Put(evals, e, EvalKey), EvalKey) <==> x == e || (x in evals && x.id != e.id)
  {
    PutMembers(evals, e, EvalKey);
    SortUnique(Put(evals, e, EvalKey), EvalKey);
  }

  /** Under its id the new evaluation is the only one; under any other nothing changes. */
  lemma StoredHas(evals: seq<Evaluation>, e: Evaluation, evalId: Id, candidateId: Id, mustPass: bool)
    requires UniqueIds(evals, EvalKey)
    ensures HasEvaluation(Sort(Put(evals, e, EvalKey), EvalKey), evalId, candidateId, mustPass) <==>
              if evalId == e.id then e.seed.candidateId == candidateId && (mustPass ==> e.pass)
              else HasEvaluation(evals, evalId, candidateId, mustPass)
  {
    var stored := Sort(Put(evals, e, EvalKey), EvalKey);
    StoredMembers(evals, e);
    if evalId == e.id {
      assert e in stored;
    } else if x :| x in evals && x.id == evalId && x.seed.candidateId == candidateId && (mustPass ==> x.pass) {
      assert x in stored;
    }
  }

  /** The automatic demotion that ends the call. */
  ghost predicate Demotes(m: Memory, e: Evaluation)
    requires e.seed.candidateId in m.cands
  {
    EvalActionOf(m.evals, e) != Unchanged && Record(m, e).cands[e.seed.candidateId].streak >= DEMOTION_STREAK
  }

  /** What a caller can check before an evaluation takes an id: no other candidate's latest
      evaluation and no other candidate's rule is under it, and a rule of this candidate that is
      promoted on it only when the evaluation passes or ends in its demotion. */
  ghost predicate EvalSafe(ids: IdScheme, m: Memory, q: EvalRequest) {
    q.candidateId in m.cands ==>
      var e := Evaluate(ids, q);
      && (forall id | id in m.cands && id != q.candidateId :: m.cands[id].latestEval != Some(e.id))
      && forall r | r in m.rules && r.origin.PromotedFrom? && r.origin.evalId == Some(e.id) ::
           r.origin.candidateId == q.candidateId && (e.pass || Demotes(m, e))
  }

  lemma EvaluatesHonestly(ids: IdScheme, q: EvalRequest)
    ensures Honest(Evaluate(ids, q)) && Evaluate(ids, q).seed.candidateId == q.candidateId
  {
  }

  /** What replay_eval leaves: the stored evaluations, and of the rules all but the one a demotion
      takes away. */
  lemma ReplayEvalLeaves(ids: IdScheme, m: Memory, q: EvalRequest)
    requires Linked(m) && q.candidateId in m.cands
    ensures var e, n := Evaluate(ids, q), ReplayEval(ids, m, q).memory;
            && n.evals == Sort(Put(m.evals, e, EvalKey), EvalKey)
            && Keyed(n) && UniqueIds(n.rules, RuleKey) && n.cands.Keys == m.cands.Keys
            && n.cands[q.candidateId].latestEval == Some(e.id)
            && (forall id | id in m.cands && id != q.candidateId :: n.cands[id].latestEval == m.cands[id].latestEval)
            && (forall r :: r in n.rules ==> r in m.rules)
            && (forall r | r in m.rules && r.origin.PromotedFrom? ::
                  r in n.rules <==> r.origin.candidateId != q.candidateId || !Demotes(m, e))
  {
    var e := Evaluate(ids, q);
    var recorded := Record(m, e);
    RecordShape(m, e);
    SameShapeKeepsLinks(m, recorded);
    if Demotes(m, e) {
      WithoutRulesUnique(recorded.rules, RuleIdsOf(recorded, Demotable(recorded, {q.candidateId})));
      DemotionTakesOwnRule(recorded, q.candidateId, q.at, {"sustained_negative_net_value"});
    }
  }

  lemma DemotionTakesOwnRule(m: Memory, id: Id, at: Time, reasons: set<string>)
    requires Linked(m) && id in m.cands
    ensures forall r | r in m.rules && r.origin.PromotedFrom? ::
              r in DemoteAll(m, {id}, at, reasons).rules <==> r.origin.candidateId != id
  {
    forall r | r in m.rules && r.origin.PromotedFrom?
      ensures r in DemoteAll(m, {id}, at, reasons).rules <==> r.origin.candidateId != id
    {
      assert BelongsToPromoted(m, r);
    }
  }

  lemma SafeEvalKeepsGate(ids: IdScheme, m: Memory, q: EvalRequest)
    requires Gated(m) && Linked(m) && q.candidateId in m.cands && EvalSafe(ids, m, q)
    ensures Gated(ReplayEval(ids, m, q).memory)
  {
    var e, n := Evaluate(ids, q), ReplayEval(ids, m, q).memory;
    EvaluatesHonestly(ids, q);
    ReplayEvalLeaves(ids, m, q);
    StoredMembers(m.evals, e);
    forall id | id in n.cands && n.cands[id].latestEval.Some?
      ensures HasEvaluation(n.evals, n.cands[id].latestEval.value, id, false)
    {
      StoredHas(m.evals, e, n.cands[id].latestEval.value, id, false);
    }
    forall r | r in n.rules && r.origin.PromotedFrom? ensures PassedGate(n.evals, r) {
      assert r in m.rules && PassedGate(m.evals, r);
      StoredHas(m.evals, e, r.origin.evalId.value, r.origin.candidateId, true);
    }
  }

  lemma GateNeedsEvalSafe(ids: IdScheme, m: Memory, q: EvalRequest)
    requires Gated(m) && Linked(m) && q.candidateId in m.cands && Gated(ReplayEval(ids, m, q).memory)
    ensures EvalSafe(ids, m, q)
  {
    var e, n := Evaluate(ids, q), ReplayEval(ids, m, q).memory;
    EvaluatesHonestly(ids, q);
    ReplayEvalLeaves(ids, m, q);
    forall id | id in m.cands && id != q.candidateId ensures m.cands[id].latestEval != Some(e.id) {
      StoredHas(m.evals, e, e.id, id, false);
      assert id in n.cands && n.cands[id].latestEval == m.cands[id].latestEval;
    }
    forall r | r in m.rules && r.origin.PromotedFrom? && r.origin.evalId == Some(e.id)
      ensures r.origin.candidateId == q.candidateId && (e.pass || Demotes(m, e))
    {
      StoredHas(m.evals, e, e.id, r.origin.candidateId, true);
      assert r in n.rules ==> PassedGate(n.evals, r);
    }
  }

  /** An evaluation under any id, derived or given by the caller, keeps the gate exactly when that
      holds. */
  lemma ReplayEvalKeepsGateIff(ids: IdScheme, m: Memory, q: EvalRequest)
    requires Gated(m) && Linked(m)
    ensures Gated(ReplayEval(ids, m, q).memory) <==> EvalSafe(ids, m, q)
  {
    if q.candidateId in m.cands {
      if EvalSafe(ids, m, q) {
        SafeEvalKeepsGate(ids, m, q);
      }
      if Gated(ReplayEval(ids, m, q).memory) {
        GateNeedsEvalSafe(ids, m, q);
      }
    }
  }

  /** Every stored id is derived, so it pins what it evaluates. */
  ghost predicate DerivedEvals(ids: IdScheme, m: Memory) { forall e | e in m.evals :: e.id == ids.eval(e.seed) }

  /** A derived id is always safe: what is stored under it says the same. */
  lemma DerivedIsSafe(ids: IdScheme, m: Memory, q: EvalRequest)
    requires ids.Injective() && Gated(m) && DerivedEvals(ids, m) && q.evalId == None
    ensures EvalSafe(ids, m, q) && DerivedEvals(ids, ReplayEval(ids, m, q).memory)
  {
    if q.candidateId in m.cands {
      var e := Evaluate(ids, q);
      EvaluatesHonestly(ids, q);
      StoredMembers(m.evals, e);
      forall x | x in m.evals && x.id == e.id ensures x.seed == e.seed && x.pass == e.pass {
        assert Honest(x);
      }
      forall r | r in m.rules && r.origin.PromotedFrom? && r.origin.evalId == Some(e.id)
        ensures r.origin.candidateId == q.candidateId && e.pass
      {
        assert PassedGate(m.evals, r);
      }
    }
  }

  // ----- promote ---------------------------------------------------------------------------

  lemma {:induction false} LastOfIsOwn(evals: seq<Evaluation>, candidateId: Id)
    ensures LastOf(evals, candidateId).Some? ==>
              LastOf(evals, candidateId).value in evals && LastOf(evals, candidateId).value.seed.candidateId == candidateId
  {
    if evals != [] {
      LastOfIsOwn(evals[..|evals| - 1], candidateId);
    }
  }

  lemma GateEvaluationIsOwn(m: Memory, id: Id)
    requires Gated(m) && id in m.cands && GateEvaluation(m.evals, m.cands[id]).Some?
    ensures GateEvaluation(m.evals, m.cands[id]).value in m.evals
    ensures GateEvaluation(m.evals, m.cands[id]).value.seed.candidateId == id
  {
    var c := m.cands[id];
    LastOfIsOwn(m.evals, id);
    if c.latestEval.Some? {
      var x :| x in m.evals && x.id == c.latestEval.value && x.seed.candidateId == id;
      FindInMap(m.evals, x.id, EvalKey);
    }
  }

  lemma PromoteKeepsGate(m: Memory, candidateId: Id, at: Time, window: int)
    requires Gated(m)
    ensures Gated(Promote(m, candidateId, at, window).memory)
  {
    var reply := Promote(m, candidateId, at, window);
    if reply.verdict == Applied {
      var c := m.cands[candidateId];
      GateEvaluationIsOwn(m, candidateId);
      var e := GateEvaluation(m.evals, c).value;
      var r, n := PromotedRule(c, e, at), reply.memory;
      PutMembers(m.rules, r, RuleKey);
      assert HasEvaluation(m.evals, e.id, candidateId, true) && HasEvaluation(m.evals, e.id, candidateId, false);
      forall q | q in n.rules ensures PassedGate(n.evals, q) {
        assert q == r || PassedGate(m.evals, q);
      }
    }
  }

  // ----- the other operations --------------------------------------------------------------

  lemma WeighedUntouched(m: Memory, adjustmentId: Id, p: Adjustment)
    requires Keyed(m) && UniqueIds(m.rules, RuleKey) && p.candidateId in m.cands
    ensures GateUntouched(m, Weighed(m, adjustmentId, p))
  {
    SameRulesUntouched(m, Weighed(m, adjustmentId, p));
  }

  lemma SameRecordsUntouched(m: Memory, n: Memory, o: Memory)
    requires GateUntouched(m, n) && n.evals == o.evals && n.cands == o.cands && n.rules == o.rules
    ensures GateUntouched(m, o)
  {
  }

  lemma AddWeightUntouched(ids: IdScheme, m: Memory, givenId: Option<Id>, request: Adjustment)
    requires Keyed(m) && UniqueIds(m.rules, RuleKey)
    ensures GateUntouched(m, AddWeight(ids, m, givenId, request).memory)
  {
    AddWeightCases(ids, m, givenId, request);
    var n, p, id := AddWeight(ids, m, givenId, request), Normalized(request), AdjustmentId(ids, givenId, request);
    if Wrote(n.verdict) {
      WeighedUntouched(m, id, p);
      SameRecordsUntouched(m, Weighed(m, id, p), n.memory);
    } else {
      SameRulesUntouched(m, m);
      SameRecordsUntouched(m, m, n.memory);
    }
  }

  lemma FeedbackUntouched(m: Memory, f: FeedbackRecord)
    requires Keyed(m) && UniqueIds(m.rules, RuleKey)
    ensures GateUntouched(m, Feedback(m, f).memory)
  {
    var stored := m.(feedback := m.feedback[f.id := f]);
    var ruleIds, candidateIds := AsList(f.ruleId), AsList(f.candidateId);
    var signalled := ApplyUtility(stored, ruleIds, candidateIds, f.id, if f.harmful then -0.18 else 0.12, f.at);
    SameRulesUntouched(m, m);
    SameRulesUntouched(m, signalled);
    var targets := Targets(signalled, ruleIds, candidateIds);
    DemoteAllUntouched(signalled, targets, f.at, {"explicit_harmful_feedback"});
    UntouchedChains(m, signalled, DemoteAll(signalled, targets, f.at, {"explicit_harmful_feedback"}));
  }

  lemma {:induction false} ShadowWriteUntouched(ids: IdScheme, m: Memory, batch: seq<WriteRequest>, at: Time)
    requires Keyed(m) && UniqueIds(m.rules, RuleKey)
    ensures GateUntouched(m, ShadowWrite(ids, m, batch, at).memory)
    decreases batch
  {
    SameRulesUntouched(m, m);
    if batch != [] && WriteError(batch[0]).None? {
      var n := WriteOne(m, NormalizeShadowCandidate(ids, batch[0]), at);
      assert GateUntouched(m, n);
      ShadowWriteUntouched(ids, n, batch[1..], at);
      UntouchedChains(m, n, ShadowWrite(ids, n, batch[1..], at).memory);
    }
  }

  lemma DemoteUntouched(m: Memory, id: Id, at: Time, threshold: int, force: bool, reasons: set<string>)
    requires Keyed(m) && UniqueIds(m.rules, RuleKey)
    ensures GateUntouched(m, Demote(m, id, at, threshold, force, reasons).memory)
  {
    SameRulesUntouched(m, m);
    if id in m.cands {
      DemoteAllUntouched(m, {id}, at, DemoteReasons(m.cands[id], threshold, force, reasons));
    }
  }

  lemma QuarantineUntouched(m: Memory, ruleIds: seq<Id>, candidateIds: seq<Id>, at: Time, reasons: set<string>)
    requires Keyed(m) && UniqueIds(m.rules, RuleKey)
    ensures GateUntouched(m, Quarantine(m, ruleIds, candidateIds, at, reasons))
  {
    var d := DemoteAll(m, Targets(m, ruleIds, candidateIds), at, reasons);
    DemoteAllUntouched(m, Targets(m, ruleIds, candidateIds), at, reasons);
    WithoutRulesUnique(d.rules, set id | id in ruleIds);
  }

  lemma CurateUntouched(m: Memory, winners: seq<Winner>, at: Time)
    requires Keyed(m) && UniqueIds(m.rules, RuleKey)
    ensures GateUntouched(m, Curate(m, winners, at))
  {
    CurateEachMembers(m.rules, winners, at);
    SortUnique(CurateEach(m.rules, winners, at), RuleKey);
  }

  lemma StepUntouched(ids: IdScheme, m: Memory, op: Op)
    requires Keyed(m) && UniqueIds(m.rules, RuleKey) && !op.OpReplayEval? && !op.OpPromote? && !op.OpOverride?
    ensures GateUntouched(m, Step(ids, m, op).memory)
  {
    match op
    case OpShadowWrite(batch, at) => ShadowWriteUntouched(ids, m, batch, at);
    case OpDemote(id, at, threshold, force, reasons) => DemoteUntouched(m, id, at, threshold, force, reasons);
    case OpAddWeight(adjustmentId, p) => AddWeightUntouched(ids, m, adjustmentId, p);
    case OpQuarantine(rs, cs, at, reasons) => QuarantineUntouched(m, rs, cs, at, reasons);
    case OpFeedback(f) => FeedbackUntouched(m, f);
    case OpOutcome(o) => SameRulesUntouched(m, Outcome(m, o).memory);
    case OpCurate(winners, at) => CurateUntouched(m, winners, at);
    case OpTick(at) => WithoutRulesUnique(m.rules, RuleIdsOf(m, Expiring(m, at)));
    case OpAudit(_, _, _, _, _, _) => SameRulesUntouched(m, Step(ids, m, op).memory);
  }

  // ----- manual override -------------------------------------------------------------------

  /** The candidate's own latest evaluation let it pass. */
  ghost predicate MayPromote(m: Memory, id: Id)
    requires id in m.cands
  {
    m.cands[id].latestEval.Some? && HasEvaluation(m.evals, m.cands[id].latestEval.value, id, true)
  }

  /** The rule an override installs for a candidate. */
  function OverrideRuleFor(m: Memory, id: Id, at: Time): Rule
    requires id in m.cands
  {
    OverrideRule(OverriddenCandidate(m.cands[id], at), at)
  }

  lemma {:induction false} OverrideEachCandidates(m: Memory, targets: seq<Id>, at: Time)
    requires Ascending(targets)
    ensures var n := OverrideEach(m, targets, at);
            && n.evals == m.evals && n.cands.Keys == m.cands.Keys
            && (forall id | id in m.cands :: n.cands[id].latestEval == m.cands[id].latestEval)
            && (forall id | id in m.cands && id !in targets :: n.cands[id] == m.cands[id])
  {
    if targets != [] {
      assert targets[|targets| - 1] !in targets[..|targets| - 1];
      OverrideEachCandidates(m, targets[..|targets| - 1], at);
    }
  }

  lemma {:induction false} OverrideEachRules(m: Memory, targets: seq<Id>, at: Time)
    requires Linked(m) && Ascending(targets)
    ensures var n := OverrideEach(m, targets, at);
            && Linked(n)
            && (forall id | id in targets && id in m.cands :: OverrideRuleFor(m, id, at) in n.rules)
            && (forall r | r in n.rules :: r in m.rules || exists id :: id in targets && id in m.cands && r == OverrideRuleFor(m, id, at))
  {
    if targets != [] {
      var front, id := targets[..|targets| - 1], targets[|targets| - 1];
      assert id !in front;
      OverrideEachRules(m, front, at);
      OverrideEachCandidates(m, front, at);
      OverrideEachKeepsLinks(m, targets, at);
      var before, n := OverrideEach(m, front, at), OverrideEach(m, targets, at);
      if id in m.cands {
        var r := OverrideRuleFor(m, id, at);
        assert n.rules == Put(before.rules, r, RuleKey);
        PutMembers(before.rules, r, RuleKey);
        forall i | i in front && i in m.cands ensures OverrideRuleFor(m, i, at) in n.rules {
          OverrideRulesDiffer(m, i, id, at);
        }
      } else {
        assert n.rules == before.rules;
      }
    }
  }

  lemma OverrideRulesDiffer(m: Memory, i: Id, j: Id, at: Time)
    requires Linked(m) && i in m.cands && j in m.cands && i != j
    ensures OverrideRuleFor(m, i, at).ruleId != OverrideRuleFor(m, j, at).ruleId
  {
  }

  lemma GateNeedsMayPromote(m: Memory, ruleIds: seq<Id>, candidateIds: seq<Id>, at: Time, id: Id)
    requires Gated(m) && Linked(m) && Gated(Override(m, ruleIds, candidateIds, at))
    requires id in Targets(m, ruleIds, candidateIds) && id in m.cands
    ensures MayPromote(m, id)
  {
    var targets := Listed(Targets(m, ruleIds, candidateIds));
    OverrideEachRules(m, targets, at);
    OverrideEachCandidates(m, targets, at);
    var r, n := OverrideRuleFor(m, id, at), Override(m, ruleIds, candidateIds, at);
    assert r in n.rules && PassedGate(n.evals, r);
  }

  /** Every target that exists could have been promoted on its own latest evaluation. */
  ghost predicate OverrideSafe(m: Memory, ruleIds: seq<Id>, candidateIds: seq<Id>) {
    forall id | id in Targets(m, ruleIds, candidateIds) && id in m.cands :: MayPromote(m, id)
  }

  lemma OverrideKeepsGateIf(m: Memory, ruleIds: seq<Id>, candidateIds: seq<Id>, at: Time)
    requires Gated(m) && Linked(m) && OverrideSafe(m, ruleIds, candidateIds)
    ensures Gated(Override(m, ruleIds, candidateIds, at))
  {
    var targets := Listed(Targets(m, ruleIds, candidateIds));
    OverrideEachRules(m, targets, at);
    OverrideEachCandidates(m, targets, at);
    var done, n := OverrideEach(m, targets, at), Override(m, ruleIds, candidateIds, at);
    SortUnique(done.rules, RuleKey);
    forall r | r in n.rules ensures PassedGate(n.evals, r) {
      if r in m.rules {
        assert PassedGate(m.evals, r);
      } else {
        var id :| id in targets && id in m.cands && r == OverrideRuleFor(m, id, at);
        assert MayPromote(m, id);
      }
    }
    assert LatestIsOwn(n);
  }

  /** A manual override keeps the gate exactly when that holds. */
  lemma OverrideKeepsGateIff(m: Memory, ruleIds: seq<Id>, candidateIds: seq<Id>, at: Time)
    requires Gated(m) && Linked(m)
    ensures Gated(Override(m, ruleIds, candidateIds, at)) <==> OverrideSafe(m, ruleIds, candidateIds)
  {
    if Gated(Override(m, ruleIds, candidateIds, at)) {
      forall id | id in Targets(m, ruleIds, candidateIds) && id in m.cands ensures MayPromote(m, id) {
        GateNeedsMayPromote(m, ruleIds, candidateIds, at, id);
      }
    }
    if OverrideSafe(m, ruleIds, candidateIds) {
      OverrideKeepsGateIf(m, ruleIds, candidateIds, at);
    }
  }

  // ----- runs ------------------------------------------------------------------------------

  /** What a caller can check before a call that might break the gate. */
  ghost predicate Guarded(ids: IdScheme, m: Memory, op: Op) {
    && (op.OpReplayEval? ==> EvalSafe(ids, m, op.request))
    && (op.OpOverride? ==> OverrideSafe(m, op.ruleIds, op.candidateIds))
  }

  /** One operation keeps the gate exactly when it is guarded. */
  lemma StepKeepsGateIff(ids: IdScheme, m: Memory, op: Op)
    requires Gated(m) && Linked(m)
    ensures Gated(Step(ids, m, op).memory) <==> Guarded(ids, m, op)
  {
    match op
    case OpReplayEval(q) => ReplayEvalKeepsGateIff(ids, m, q);
    case OpOverride(rs, cs, at) => OverrideKeepsGateIff(m, rs, cs, at);
    case OpPromote(id, at, window) => PromoteKeepsGate(m, id, at, window);
    case _ =>
      StepUntouched(ids, m, op);
      UntouchedKeepsGate(m, Step(ids, m, op).memory);
  }

  ghost predicate GuardedRun(ids: IdScheme, ops: seq<Op>) {
    ops != [] ==>
      GuardedRun(ids, ops[..|ops| - 1]) && Guarded(ids, Run(ids, ops[..|ops| - 1]), ops[|ops| - 1])
  }

  /** The gate holds over every run with derived candidate ids in which each supplied evaluation id
      and each override is guarded. */
  lemma {:induction false} GuardedRunIsGated(ids: IdScheme, ops: seq<Op>)
    requires ids.Injective() && (forall op | op in ops :: DerivesOnly(op)) && GuardedRun(ids, ops)
    ensures Gated(Run(ids, ops))
  {
    if ops != [] {
      var front := ops[..|ops| - 1];
      assert forall op | op in front :: op in ops;
      GuardedRunIsGated(ids, front);
      RunKeepsLinks(ids, front);
      StepKeepsGateIff(ids, Run(ids, front), ops[|ops| - 1]);
    }
  }

  /** Derived ids only, and no manual override. */
  predicate Gatekept(op: Op) {
    !op.OpOverride? && (op.OpReplayEval? ==> op.request.evalId == None) && DerivesOnly(op)
  }

  lemma StepKeepsDerivedEvals(ids: IdScheme, m: Memory, op: Op)
    requires ids.Injective() && Gatekept(op) && Gated(m) && DerivedEvals(ids, m)
    ensures Guarded(ids, m, op) && DerivedEvals(ids, Step(ids, m, op).memory)
  {
    if op.OpReplayEval? {
      DerivedIsSafe(ids, m, op.request);
    } else if !op.OpPromote? {
      StepUntouched(ids, m, op);
    }
  }

  /** With derived ids and no override every run is guarded. */
  lemma {:induction false} RunIsGated(ids: IdScheme, ops: seq<Op>)
    requires ids.Injective() && forall op | op in ops :: Gatekept(op)
    ensures Gated(Run(ids, ops)) && DerivedEvals(ids, Run(ids, ops))
  {
    if ops != [] {
      var front := ops[..|ops| - 1];
      assert forall op | op in front :: op in ops;
      RunIsGated(ids, front);
      RunKeepsLinks(ids, front);
      StepKeepsDerivedEvals(ids, Run(ids, front), ops[|ops| - 1]);
      StepKeepsGateIff(ids, Run(ids, front), ops[|ops| - 1]);
    }
  }

  /** In every reachable state, a rule promoted from a candidate names a stored evaluation of
      that candidate with no safety regression and a net value at or above its threshold. */
  lemma PromotedRulesPassedGate(ids: IdScheme, ops: seq<Op>, r: Rule)
    requires ids.Injective() && forall op | op in ops :: Gatekept(op)
    requires r in Run(ids, ops).rules && r.origin.PromotedFrom?
    ensures exists e :: e in Run(ids, ops).evals && r.origin.evalId == Some(e.id) && e.seed.candidateId == r.origin.candidateId
                        && e.pass && e.net >= e.seed.gate
                        && Regressions(e.seed.metrics, e.seed.canary, e.seed.replayLimit, e.seed.canaryLimit) == 0
  {
    var m := Run(ids, ops);
    RunIsGated(ids, ops);
    assert PassedGate(m.evals, r);
    var e :| e in m.evals && e.id == r.origin.evalId.value && e.seed.candidateId == r.origin.candidateId && e.pass;
    assert Honest(e);
  }

  lemma OverrideAlone(m: Memory, c: Candidate, at: Time)
    requires m == EMPTY.(cands := map[c.id := c]) && c.status == Shadow
    ensures var n := Override(m, [], [c.id], at);
            n.evals == [] && exists r :: r in n.rules && r.origin == PromotedFrom(c.id, c.latestEval, GetOr(c.promotedAt, at))
  {
    var targets := Listed(Targets(m, [], [c.id]));
    assert Linked(m);
    assert c.id in targets;
    OverrideEachRules(m, targets, at);
    OverrideEachCandidates(m, targets, at);
    assert OverrideRuleFor(m, c.id, at).origin.candidateId == c.id;
  }

  /** An override of a candidate that was never evaluated: written, then promoted by hand, it has a
      rule that names no evaluation. */
  lemma OverrideExample(ids: IdScheme, w: WriteRequest, at: Time)
    requires WriteError(w).None?
    ensures var c := NormalizeShadowCandidate(ids, w);
            var m := Run(ids, [OpShadowWrite([w], at)] + [OpOverride([], [c.id], at)]);
            && (exists r :: r in m.rules && r.origin == PromotedFrom(c.id, None, at))
            && !Gated(m)
  {
    var c := NormalizeShadowCandidate(ids, w);
    WriteFirst(ids, w, at);
    RunSnoc(ids, [OpShadowWrite([w], at)], OpOverride([], [c.id], at));
    OverrideAlone(EMPTY.(cands := map[c.id := c]), c, at);
    var n := Override(EMPTY.(cands := map[c.id := c]), [], [c.id], at);
    var r :| r in n.rules && r.origin == PromotedFrom(c.id, None, at);
    assert !PassedGate(n.evals, r);
  }

  lemma OneInPlace(e: Evaluation, f: Evaluation)
    requires f.id == e.id
    ensures Sort(Put([e], f, EvalKey), EvalKey) == [f]
  {
    assert Put([e], f, EvalKey) == [f];
    assert Sort([f], EvalKey) == [f] by { assert [f][..0] == []; }
  }

  lemma TrailingOfOne(f: Evaluation, c: Id)
    ensures Trailing([f], c) == if f.seed.candidateId == c && f.net < 0 then 1 else 0
  {
    assert [f][..0] == [];
  }

  lemma PromotedAlone(ids: IdScheme, w: WriteRequest, q: EvalRequest, at: Time, window: int)
    requires WriteError(w).None? && q.candidateId == NormalizeShadowCandidate(ids, w).id
    requires q.at == at && Evaluate(ids, q).pass && at <= w.expiresAt
    ensures var m := Run(ids, [OpShadowWrite([w], at)] + [OpReplayEval(q)] + [OpPromote(q.candidateId, at, window)]);
            var e := Evaluate(ids, q);
            && m.evals == [e] && q.candidateId in m.cands && m.cands[q.candidateId].id == q.candidateId
            && exists r :: r in m.rules && r.origin == PromotedFrom(q.candidateId, Some(e.id), at)
  {
    var c, e := NormalizeShadowCandidate(ids, w), Evaluate(ids, q);
    var one := [OpShadowWrite([w], at)];
    var two := one + [OpReplayEval(q)];
    WriteFirst(ids, w, at);
    RunSnoc(ids, one, OpReplayEval(q));
    EvaluateFirst(ids, Run(ids, one), c, q);
    RecordFirst(Run(ids, one), c, e);
    RunSnoc(ids, two, OpPromote(q.candidateId, at, window));
    var d := Run(ids, two).cands[c.id];
    PromoteFirst(Run(ids, two), d, e, at, window);
    assert PromotedRule(d, e, at) in [PromotedRule(d, e, at)];
  }

  lemma FailInPlace(ids: IdScheme, m: Memory, e: Evaluation, q: EvalRequest)
    requires m.evals == [e] && q.candidateId in m.cands && m.cands[q.candidateId].id == q.candidateId
    requires q.evalId == Some(e.id) && e.pass && !Evaluate(ids, q).pass && Evaluate(ids, q).net >= 0
    ensures ReplayEval(ids, m, q).memory.evals == [Evaluate(ids, q)] && ReplayEval(ids, m, q).memory.rules == m.rules
  {
    var f := Evaluate(ids, q);
    assert EvalActionOf([e], f) == Updated;
    OneInPlace(e, f);
    TrailingOfOne(f, q.candidateId);
  }

  /** The gate can break under a supplied id: a promoted candidate is evaluated again under the id its
      rule stands on, fails without a negative score, and the rule stays. */
  lemma SuppliedEvalIdExample(ids: IdScheme, w: WriteRequest, q: EvalRequest, again: EvalRequest, at: Time, window: int)
    requires WriteError(w).None? && q.candidateId == NormalizeShadowCandidate(ids, w).id
    requires q.at == at && Evaluate(ids, q).pass && at <= w.expiresAt
    requires q.evalId.Some? && again.evalId == q.evalId && again.candidateId == q.candidateId
    requires !Evaluate(ids, again).pass && Evaluate(ids, again).net >= 0
    ensures var m := Run(ids, [OpShadowWrite([w], at)] + [OpReplayEval(q)] + [OpPromote(q.candidateId, at, window)]
                              + [OpReplayEval(again)]);
            && (exists r :: r in m.rules && r.origin == PromotedFrom(q.candidateId, q.evalId, at))
            && (forall e | e in m.evals :: !e.pass)
            && !Gated(m)
  {
    var three := [OpShadowWrite([w], at)] + [OpReplayEval(q)] + [OpPromote(q.candidateId, at, window)];
    PromotedAlone(ids, w, q, at, window);
    RunSnoc(ids, three, OpReplayEval(again));
    FailInPlace(ids, Run(ids, three), Evaluate(ids, q), again);
    var n := ReplayEval(ids, Run(ids, three), again).memory;
    var r :| r in n.rules && r.origin == PromotedFrom(q.candidateId, q.evalId, at);
    assert !PassedGate(n.evals, r);
  }
}
