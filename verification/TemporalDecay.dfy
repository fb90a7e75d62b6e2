/** What ticks of the maintenance clock do to candidates over time. */
module TemporalDecay {
  import opened Numbers
  import opened Timeline
  import opened Lifecycle

  // ----- one tick --------------------------------------------------------------------------

  lemma TickStepIdempotent(c: Candidate, at: Time)
    ensures TickStep(TickStep(c, at), at) == TickStep(c, at)
  {
  }

  lemma {:induction false} WithoutNone(rules: seq<Rule>)
    ensures WithoutRules(rules, {}) == rules
  {
    if rules != [] {
      WithoutNone(rules[1..]);
    }
  }

  /** A second tick at the same time changes nothing. */
  lemma TickIdempotent(m: Memory, at: Time)
    ensures Tick(Tick(m, at), at) == Tick(m, at)
  {
    var n := Tick(m, at);
    forall id | id in m.cands ensures TickStep(n.cands[id], at) == n.cands[id] && !Expires(n.cands[id], at) {
      TickStepIdempotent(m.cands[id], at);
    }
    assert Expiring(n, at) == {};
    assert RuleIdsOf(n, {}) == {};
    WithoutNone(n.rules);
  }

  // ----- many ticks ------------------------------------------------------------------------

  function Ticks(c: Candidate, times: seq<Time>): Candidate {
    if times == [] then c else TickStep(Ticks(c, times[..|times| - 1]), times[|times| - 1])
  }

  lemma {:induction false} RetainedAdds(a: nat, b: nat)
    ensures Retained(a + b) == Times(Retained(a), Retained(b))
  {
    if a == 0 {
      TimesUnit(Retained(b), 1.0);
    } else {
      RetainedAdds(a - 1, b);
      TimesAssociates(DAILY_RETENTION, Retained(a - 1), Retained(b));
    }
  }

  function Floored(x: real): real { MaxReal(CONFIDENCE_FLOOR, x) }

  /** Scaling down and lifting to the floor never widens a gap. */
  lemma ShrinkKeepsGap(x: real, y: real, q: real, gap: real)
    requires 0.0 <= q <= 1.0 && y - gap <= x <= y + gap && gap >= 0.0
    ensures Floored(Times(y, q)) - gap <= Floored(Times(x, q)) <= Floored(Times(y, q)) + gap
  {
    TimesMonotone(x, y + gap, q);
    TimesMonotone(y - gap, x, q);
    TimesMonotone(q, 1.0, gap);
    TimesAdds(y, gap, q);
    TimesUnit(q, gap);
    TimesUnit(gap, q);
  }

  lemma FloorTwice(z: real, q: real)
    requires 0.0 <= q <= 1.0
    ensures Floored(Times(Floored(z), q)) == Floored(Times(z, q))
  {
    if z < CONFIDENCE_FLOOR {
      TimesMonotone(z, CONFIDENCE_FLOOR, q);
      TimesMonotone(q, 1.0, CONFIDENCE_FLOOR);
      TimesUnit(q, CONFIDENCE_FLOOR);
      TimesUnit(CONFIDENCE_FLOOR, q);
    }
  }

  /** One effective tick, from a value within `gap` of an exact one. */
  lemma DecayOnce(x: real, y: real, days: nat, gap: real)
    requires days > 0 && 0.0 <= x <= 1.0 && y - gap <= x <= y + gap && gap >= 0.0
    ensures var next, exact := Round6(Floored(Times(x, Retained(days)))), Floored(Times(y, Retained(days)));
            && exact - gap - 0.0000005 <= next <= exact + gap + 0.0000005
            && CONFIDENCE_FLOOR <= next <= 1.0
            && (x >= CONFIDENCE_FLOOR ==> next <= x)
  {
    var q := Retained(days);
    var here := Floored(Times(x, q));
    ShrinkKeepsGap(x, y, q, gap);
    TimesMonotone(q, DAILY_RETENTION, x);
    TimesUnit(q, x);
    assert Times(DAILY_RETENTION, x) == 0.99 * x;
    Round6Near(here);
    Round6Exact(50000);
    Round6Monotone(CONFIDENCE_FLOOR, here);
    Round6Exact(1000000);
    Round6Monotone(here, 1.0);
  }

  /** How far a candidate is from exact decay, `k` effective ticks after it was `c`. */
  ghost predicate Near(c: Candidate, d: Candidate) {
    && d.decayTicks >= c.decayTicks && d.decayDays >= c.decayDays && 0.0 <= d.confidence <= 1.0
    && (d.decayTicks == c.decayTicks ==> d.confidence == c.confidence && d.decayDays == c.decayDays)
    && (d.decayTicks > c.decayTicks ==>
          && Abs(d.confidence - Floored(Times(c.confidence, Retained(d.decayDays - c.decayDays))))
             <= (d.decayTicks - c.decayTicks) as real * 0.0000005
          && d.confidence >= CONFIDENCE_FLOOR)
    && (c.confidence >= CONFIDENCE_FLOOR ==> CONFIDENCE_FLOOR <= d.confidence <= c.confidence)
  }

  lemma NextTickNear(c: Candidate, b: Candidate, at: Time)
    requires 0.0 <= c.confidence <= 1.0 && Near(c, b)
    requires b.status == Shadow && !Expires(b, at) && AgeDays(at, b.decayCursor) > 0
    ensures Near(c, TickStep(b, at))
  {
    var days, before := AgeDays(at, b.decayCursor), b.decayDays - c.decayDays;
    var exact := Times(c.confidence, Retained(before));
    RetainedAdds(before, days);
    TimesAssociates(c.confidence, Retained(before), Retained(days));
    if b.decayTicks == c.decayTicks {
      TimesUnit(c.confidence, 1.0);
      DecayOnce(b.confidence, c.confidence, days, 0.0);
    } else {
      var gap := (b.decayTicks - c.decayTicks) as real * 0.0000005;
      DecayOnce(b.confidence, Floored(exact), days, gap);
      FloorTwice(exact, Retained(days));
    }
  }

  /** While the candidate stays a shadow, k ticks that saw at least one whole day leave its
      confidence within k half-millionths of the exact decay over all D days they saw. */
  lemma {:induction false} TicksNearExactDecay(c: Candidate, times: seq<Time>)
    requires c.status == Shadow && 0.0 <= c.confidence <= 1.0 && Ticks(c, times).status == Shadow
    ensures Near(c, Ticks(c, times))
  {
    if times != [] {
      var front, at := times[..|times| - 1], times[|times| - 1];
      var b, d := Ticks(c, front), Ticks(c, times);
      assert b.status == Shadow;
      TicksNearExactDecay(c, front);
      var days := AgeDays(at, b.decayCursor);
      if days > 0 {
        NextTickNear(c, b, at);
      }
    }
  }

  // ----- the decay cursor over runs --------------------------------------------------------

  /** Days already decayed fit between creation and the cursor. */
  ghost predicate CursorsSound(m: Memory) {
    forall id | id in m.cands :: m.cands[id].decayDays * DAY <= m.cands[id].decayCursor - m.cands[id].createdAt
  }

  predicate SameCursor(c: Candidate, d: Candidate) {
    c.createdAt == d.createdAt && c.decayCursor == d.decayCursor && c.decayDays == d.decayDays
  }

  ghost predicate CursorsKept(m: Memory, n: Memory) {
    m.cands.Keys <= n.cands.Keys &&
    forall id | id in n.cands ::
      if id in m.cands then SameCursor(m.cands[id], n.cands[id])
      else n.cands[id].decayDays == 0 && n.cands[id].decayCursor == n.cands[id].createdAt
  }

  lemma {:induction false} ShadowWriteKeepsCursors(ids: IdScheme, m: Memory, batch: seq<WriteRequest>, at: Time)
    ensures CursorsKept(m, ShadowWrite(ids, m, batch, at).memory)
    decreases batch
  {
    if batch != [] && WriteError(batch[0]).None? {
      var n := WriteOne(m, NormalizeShadowCandidate(ids, batch[0]), at);
      assert CursorsKept(m, n);
      ShadowWriteKeepsCursors(ids, n, batch[1..], at);
    }
  }

  lemma {:induction false} OverrideKeepsCursors(m: Memory, targets: seq<Id>, at: Time)
    ensures CursorsKept(m, OverrideEach(m, targets, at))
  {
    if targets != [] {
      OverrideKeepsCursors(m, targets[..|targets| - 1], at);
    }
  }

  lemma ReplayEvalKeepsCursors(ids: IdScheme, m: Memory, q: EvalRequest)
    ensures CursorsKept(m, ReplayEval(ids, m, q).memory)
  {
    if q.candidateId in m.cands {
      assert CursorsKept(m, Record(m, Evaluate(ids, q)));
    }
  }

  lemma FeedbackKeepsCursors(m: Memory, f: FeedbackRecord)
    ensures CursorsKept(m, Feedback(m, f).memory)
  {
    var stored := m.(feedback := m.feedback[f.id := f]);
    var ruleIds, candidateIds := AsList(f.ruleId), AsList(f.candidateId);
    var signalled := ApplyUtility(stored, ruleIds, candidateIds, f.id, if f.harmful then -0.18 else 0.12, f.at);
    assert CursorsKept(m, signalled);
  }

  lemma WeighedKeepsCursors(m: Memory, adjustmentId: Id, p: Adjustment)
    requires p.candidateId in m.cands
    ensures CursorsKept(m, Weighed(m, adjustmentId, p))
  {
  }

  lemma AddWeightKeepsCursors(ids: IdScheme, m: Memory, givenId: Option<Id>, request: Adjustment)
    ensures CursorsKept(m, AddWeight(ids, m, givenId, request).memory)
  {
    AddWeightCases(ids, m, givenId, request);
    if Wrote(AddWeight(ids, m, givenId, request).verdict) {
      WeighedKeepsCursors(m, AdjustmentId(ids, givenId, request), Normalized(request));
    }
  }

  lemma PromoteKeepsCursors(m: Memory, id: Id, at: Time, window: int)
    ensures CursorsKept(m, Promote(m, id, at, window).memory)
  {
  }

  lemma DemoteAllKeepsCursors(m: Memory, targets: set<Id>, at: Time, reasons: set<string>)
    ensures CursorsKept(m, DemoteAll(m, targets, at, reasons))
  {
  }

  lemma DemoteKeepsCursors(m: Memory, id: Id, at: Time, threshold: int, force: bool, reasons: set<string>)
    ensures CursorsKept(m, Demote(m, id, at, threshold, force, reasons).memory)
  {
    if id in m.cands {
      DemoteAllKeepsCursors(m, {id}, at, DemoteReasons(m.cands[id], threshold, force, reasons));
    }
  }

  lemma OutcomeKeepsCursors(m: Memory, o: OutcomeRecord)
    ensures CursorsKept(m, Outcome(m, o).memory)
  {
  }

  lemma StepKeepsCursors(ids: IdScheme, m: Memory, op: Op)
    requires !op.OpTick?
    ensures CursorsKept(m, Step(ids, m, op).memory)
  {
    match op
    case OpShadowWrite(batch, at) => ShadowWriteKeepsCursors(ids, m, batch, at);
    case OpReplayEval(q) => ReplayEvalKeepsCursors(ids, m, q);
    case OpPromote(id, at, window) => PromoteKeepsCursors(m, id, at, window);
    case OpDemote(id, at, threshold, force, reasons) => DemoteKeepsCursors(m, id, at, threshold, force, reasons);
    case OpAddWeight(adjustmentId, p) => AddWeightKeepsCursors(ids, m, adjustmentId, p);
    case OpQuarantine(rs, cs, at, reasons) => DemoteAllKeepsCursors(m, Targets(m, rs, cs), at, reasons);
    case OpOverride(rs, cs, at) => OverrideKeepsCursors(m, Listed(Targets(m, rs, cs)), at);
    case OpFeedback(f) => FeedbackKeepsCursors(m, f);
    case OpOutcome(o) => OutcomeKeepsCursors(m, o);
    case OpCurate(winners, at) =>
    case OpAudit(_, _, _, _, _, _) =>
  }

  /** In every reachable state the days a candidate was decayed for had passed by its cursor. */
  lemma {:induction false} RunCursorsSound(ids: IdScheme, ops: seq<Op>)
    ensures CursorsSound(Run(ids, ops))
  {
    if ops != [] {
      var m, op := Run(ids, ops[..|ops| - 1]), ops[|ops| - 1];
      RunCursorsSound(ids, ops[..|ops| - 1]);
      if op.OpTick? {
        forall id | id in m.cands {
          AgeDaysBound(op.at, m.cands[id].decayCursor);
        }
      } else {
        StepKeepsCursors(ids, m, op);
      }
    }
  }
}
