/** What each operation of the lifecycle decides and leaves, read off the fields of the records. */
module Effects {
  import opened Numbers
  import opened Timeline
  import opened Lifecycle
  import opened RuleLinks
  import opened PromotionGate
  import opened Replays

  // ----- the maintenance tick --------------------------------------------------------------

  /** A tick demotes exactly the shadows that expired before it, leaves everything else that is not
      a shadow alone, and changes another shadow exactly when a whole day has passed. */
  lemma TickDemotesExpired(m: Memory, at: Time, id: Id)
    requires id in m.cands
    ensures var c, n := m.cands[id], Tick(m, at);
            && n.cands.Keys == m.cands.Keys
            && (c.status != Demoted ==> (n.cands[id].status == Demoted <==> c.status == Shadow && c.expiresAt < at))
            && (c.status == Shadow && c.expiresAt < at ==>
                  n.cands[id] == c.(status := Demoted, demotedAt := Some(at), updatedAt := at,
                                    demotionReasons := {"candidate_expired"}))
            && (c.status != Shadow ==> n.cands[id] == c)
            && (c.status == Shadow && at <= c.expiresAt ==>
                  n.cands[id].status == Shadow && (n.cands[id] != c <==> at - c.decayCursor >= DAY))
  {
    var c := m.cands[id];
    WholeDays(at, c.decayCursor);
  }

  /** How many whole days lie between two times. */
  lemma WholeDays(at: Time, since: Time)
    ensures var days := AgeDays(at, since);
            && (days > 0 <==> at - since >= DAY)
            && (days > 0 ==> days * DAY <= at - since < (days + 1) * DAY)
  {
  }

  lemma AgeAtMost(at: Time, since: Time, window: nat)
    ensures AgeDays(at, since) <= window <==> at - since < (window + 1) * DAY
  {
  }

  /** A surviving shadow loses one hundredth of its confidence a day, down to a twentieth, and its
      cursor moves up. */
  lemma TickDecays(m: Memory, at: Time, id: Id)
    requires id in m.cands
    requires var c := m.cands[id]; c.status == Shadow && at <= c.expiresAt && at - c.decayCursor >= DAY
    ensures var c, d := m.cands[id], Tick(m, at).cands[id];
            var days := d.decayDays - c.decayDays;
            && d == c.(confidence := d.confidence, decayCursor := at, decayTicks := c.decayTicks + 1, decayDays := d.decayDays)
            && days >= 1 && days * DAY <= at - c.decayCursor < (days + 1) * DAY
            && (days == 1 ==> d.confidence == Round6(MaxReal(0.05, 0.99 * Clamp01(c.confidence))))
  {
    var c := m.cands[id];
    WholeDays(at, c.decayCursor);
    assert Retained(1) == Times(DAILY_RETENTION, Retained(0));
    TimesUnit(DAILY_RETENTION, 1.0);
    TimesUnit(Clamp01(c.confidence), 0.99);
  }

  /** Exactly the rules under the rule id of a candidate that the tick demotes go. */
  lemma TickDropsRules(m: Memory, at: Time, r: Rule)
    ensures var n := Tick(m, at);
            && (r in n.rules <==>
                  r in m.rules
                  && forall id | id in m.cands && m.cands[id].status == Shadow && m.cands[id].expiresAt < at ::
                       m.cands[id].ruleId != r.ruleId)
            && n.evals == m.evals && n.feedback == m.feedback && n.outcomes == m.outcomes
            && n.ledger == m.ledger && n.audit == m.audit
  {
    var n := Tick(m, at);
    forall id | id in m.cands && m.cands[id].status == Shadow && m.cands[id].expiresAt < at
      ensures m.cands[id].ruleId in RuleIdsOf(m, Expiring(m, at))
    {
      assert id in Expiring(m, at);
    }
  }

  // ----- the net value ---------------------------------------------------------------------

  const SAME := Metrics(0, 0, 0, 0, 0, 0)
  const SAME_CANARY := Canary(0, 0, 0, 0, 0)

  /** What so many millionths of a replay rate are worth when nothing else changes; no change is worth
      nothing. */
  lemma NetOfRates(m: Metrics, c: Canary, x: int)
    requires m == SAME && c == SAME_CANARY
    ensures NetValue(m.(success := x), c) == 100 * x
    ensures NetValue(m.(reopen := x), c) == -(80 * x)
    ensures NetValue(m.(violations := x), c) == -(200 * x)
    ensures NetValue(m.(hallucination := x), c) == -(120 * x)
  {
  }

  /** So many of a canary rate. */
  lemma NetOfCanaryRates(m: Metrics, c: Canary, x: int)
    requires m == SAME && c == SAME_CANARY
    ensures NetValue(m, c.(success := x)) == 60 * x
    ensures NetValue(m, c.(errors := x)) == -(90 * x)
    ensures NetValue(m, c.(violations := x)) == -(220 * x)
    ensures NetValue(m, c.(hallucination := x)) == -(140 * x)
  {
  }

  /** Twenty of replay latency, ten of tokens and twenty-five of canary latency cost one each. */
  lemma NetOfCosts(m: Metrics, c: Canary, n: int)
    requires m == SAME && c == SAME_CANARY
    ensures NetValue(m.(latency := 20 * n), c) == -n
    ensures NetValue(m.(tokens := 10 * n), c) == -n
    ensures NetValue(m, c.(latency := 25 * n)) == -n
  {
  }

  function MetricsSum(a: Metrics, b: Metrics): Metrics {
    Metrics(a.success + b.success, a.reopen + b.reopen, a.latency + b.latency, a.tokens + b.tokens,
            a.violations + b.violations, a.hallucination + b.hallucination)
  }

  function CanarySum(a: Canary, b: Canary): Canary {
    Canary(a.success + b.success, a.errors + b.errors, a.latency + b.latency, a.violations + b.violations,
           a.hallucination + b.hallucination)
  }

  lemma HundredthAdds(x: int, y: int)
    ensures -1 <= Hundredth(x + y) - Hundredth(x) - Hundredth(y) <= 1
  {
  }

  lemma TenthAdds(x: int, y: int)
    ensures -1 <= Tenth(x + y) - Tenth(x) - Tenth(y) <= 1
  {
  }

  /** Scores add up, but for the rounding of three terms. */
  lemma NetAdds(a: Metrics, b: Metrics, x: Canary, y: Canary)
    ensures -3 <= NetValue(MetricsSum(a, b), CanarySum(x, y)) - NetValue(a, x) - NetValue(b, y) <= 3
  {
    HundredthAdds(-(5 * a.latency), -(5 * b.latency));
    TenthAdds(-a.tokens, -b.tokens);
    HundredthAdds(-(4 * x.latency), -(4 * y.latency));
  }

  /** And exactly where one side changes neither latency nor tokens. */
  lemma NetAddsExactly(a: Metrics, b: Metrics, x: Canary, y: Canary)
    requires b.latency == b.tokens == y.latency == 0
    ensures NetValue(MetricsSum(a, b), CanarySum(x, y)) == NetValue(a, x) + NetValue(b, y)
  {
  }

  /** At least as good, each metric by itself. */
  predicate NoWorse(a: Metrics, b: Metrics) {
    && a.success >= b.success && a.reopen <= b.reopen && a.latency <= b.latency && a.tokens <= b.tokens
    && a.violations <= b.violations && a.hallucination <= b.hallucination
  }

  predicate NoWorseCanary(a: Canary, b: Canary) {
    && a.success >= b.success && a.errors <= b.errors && a.latency <= b.latency
    && a.violations <= b.violations && a.hallucination <= b.hallucination
  }

  lemma RoundingMonotone(x: int, y: int)
    requires x <= y
    ensures Hundredth(x) <= Hundredth(y) && Tenth(x) <= Tenth(y)
  {
  }

  /** Better replay metrics never score less, and more when they are better in something other than
      latency and tokens. */
  lemma BetterMetricsScoreMore(a: Metrics, b: Metrics, c: Canary)
    requires NoWorse(a, b)
    ensures NetValue(a, c) >= NetValue(b, c)
    ensures a.success > b.success || a.reopen < b.reopen || a.violations < b.violations || a.hallucination < b.hallucination ==>
              NetValue(a, c) > NetValue(b, c)
  {
    RoundingMonotone(-(5 * b.latency), -(5 * a.latency));
    RoundingMonotone(-b.tokens, -a.tokens);
  }

  lemma BetterCanaryScoresMore(m: Metrics, a: Canary, b: Canary)
    requires NoWorseCanary(a, b)
    ensures NetValue(m, a) >= NetValue(m, b)
    ensures a.success > b.success || a.errors < b.errors || a.violations < b.violations || a.hallucination < b.hallucination ==>
              NetValue(m, a) > NetValue(m, b)
  {
    RoundingMonotone(-(4 * b.latency), -(4 * a.latency));
  }

  // ----- replay_eval -----------------------------------------------------------------------

  datatype Safety = ReplayViolations | ReplayHallucination | CanaryViolations | CanaryHallucination | CanaryErrors

  function SafetyDelta(q: EvalRequest, s: Safety): int {
    match s
    case ReplayViolations => q.metrics.violations
    case ReplayHallucination => q.metrics.hallucination
    case CanaryViolations => q.canary.violations
    case CanaryHallucination => q.canary.hallucination
    case CanaryErrors => q.canary.errors
  }

  /** The deltas above their limit, which is never below zero. */
  function Exceeded(q: EvalRequest): set<Safety> {
    set s: Safety | SafetyDelta(q, s) > Max(0, if s.ReplayViolations? || s.ReplayHallucination? then q.replayLimit else q.canaryLimit)
  }

  lemma WithAndWithout(s: set<Safety>, x: Safety)
    ensures |s| == |s - {x}| + if x in s then 1 else 0
  {
    if x in s {
      assert s == (s - {x}) + {x};
    } else {
      assert s == s - {x};
    }
  }

  lemma CountFive(s: set<Safety>)
    ensures |s| == (if ReplayViolations in s then 1 else 0) + (if ReplayHallucination in s then 1 else 0)
                   + (if CanaryViolations in s then 1 else 0) + (if CanaryHallucination in s then 1 else 0)
                   + (if CanaryErrors in s then 1 else 0)
  {
    WithAndWithout(s, ReplayViolations);
    var a := s - {ReplayViolations};
    WithAndWithout(a, ReplayHallucination);
    var b := a - {ReplayHallucination};
    WithAndWithout(b, CanaryViolations);
    var c := b - {CanaryViolations};
    WithAndWithout(c, CanaryHallucination);
    var d := c - {CanaryHallucination};
    WithAndWithout(d, CanaryErrors);
    forall x ensures x !in d - {CanaryErrors} {
      match x
      case ReplayViolations =>
      case ReplayHallucination =>
      case CanaryViolations =>
      case CanaryHallucination =>
      case CanaryErrors =>
    }
    assert d - {CanaryErrors} == {};
  }

  lemma CountsExceeded(q: EvalRequest)
    ensures |Exceeded(q)| == Regressions(q.metrics, q.canary, Max(q.replayLimit, 0), Max(q.canaryLimit, 0))
  {
    CountFive(Exceeded(q));
  }

  /** Regressions are the safety deltas above their limits, and an evaluation passes exactly when there
      are none and the score reaches the gate. */
  lemma PassesIff(ids: IdScheme, q: EvalRequest)
    ensures var e := Evaluate(ids, q);
            && e.regressions == |Exceeded(q)|
            && (e.pass <==> (forall s: Safety :: s !in Exceeded(q)) && e.net >= q.gate)
            && e.net == NetValue(q.metrics, q.canary) && e.at == q.at && e.seed.candidateId == q.candidateId
  {
    CountsExceeded(q);
    assert (forall s: Safety :: s !in Exceeded(q)) ==> Exceeded(q) == {};
  }

  /** Of two requests under the same gate and limits the one that is no worse passes whenever the
      other does. */
  lemma NoWorsePasses(ids: IdScheme, a: EvalRequest, b: EvalRequest)
    requires NoWorse(a.metrics, b.metrics) && NoWorseCanary(a.canary, b.canary)
    requires a.gate == b.gate && a.replayLimit == b.replayLimit && a.canaryLimit == b.canaryLimit
    ensures Evaluate(ids, b).pass ==> Evaluate(ids, a).pass
    ensures Evaluate(ids, a).regressions <= Evaluate(ids, b).regressions
  {
    BetterMetricsScoreMore(a.metrics, b.metrics, b.canary);
    BetterCanaryScoresMore(a.metrics, a.canary, b.canary);
    PassesIff(ids, a);
    PassesIff(ids, b);
    SubsetSize(Exceeded(a), Exceeded(b));
  }

  /** What an evaluation leaves before any demotion. */
  ghost predicate RecordedFields(m: Memory, n: Memory, e: Evaluation)
    requires e.seed.candidateId in m.cands && n.cands.Keys == m.cands.Keys
  {
    var c, d := m.cands[e.seed.candidateId], n.cands[e.seed.candidateId];
    && (forall x :: x in n.evals <==> x == e || (x in m.evals && x.id != e.id))
    && d == c.(latestEval := Some(e.id), latestNet := Some(e.net), latestStatus := if e.pass then Passed else Failed,
               updatedAt := e.at, streak := d.streak)
    && n.rules == m.rules && forall id | id in m.cands && id != e.seed.candidateId :: n.cands[id] == m.cands[id]
  }

  lemma RecordLeaves(m: Memory, e: Evaluation)
    requires UniqueIds(m.evals, EvalKey) && e.seed.candidateId in m.cands
    ensures Record(m, e).cands.Keys == m.cands.Keys && RecordedFields(m, Record(m, e), e)
  {
    StoredMembers(m.evals, e);
  }

  /** What demoting one candidate leaves. */
  lemma DemoteOne(m: Memory, id: Id, at: Time, reasons: set<string>)
    requires id in m.cands
    ensures var c, n := m.cands[id], DemoteAll(m, {id}, at, reasons);
            && n.cands.Keys == m.cands.Keys && n.evals == m.evals
            && n.cands[id] == (if c.status == Demoted then c
                               else c.(status := Demoted, demotedAt := Some(at), updatedAt := at, demotionReasons := reasons))
            && (forall k | k in m.cands && k != id :: n.cands[k] == m.cands[k])
            && forall r :: r in n.rules <==> r in m.rules && (c.status == Demoted || r.ruleId != c.ruleId)
  {
    if m.cands[id].status == Demoted {
      assert Demotable(m, {id}) == {} && RuleIdsOf(m, {}) == {};
    } else {
      assert Demotable(m, {id}) == {id} && RuleIdsOf(m, {id}) == {m.cands[id].ruleId};
    }
  }

  /** An evaluation that is not a replay and brings the count to two demotes, and no other does. */
  predicate Triggers(m: Memory, e: Evaluation)
    requires e.seed.candidateId in m.cands
  {
    e !in m.evals && Record(m, e).cands[e.seed.candidateId].streak >= 2
  }

  /** What an evaluation leaves: it is stored and its candidate says so, no other candidate changes,
      and the candidate is demoted, with its rule, exactly when that is triggered. */
  lemma ReplayEvalLeavesFields(ids: IdScheme, m: Memory, q: EvalRequest)
    requires UniqueIds(m.evals, EvalKey)
    ensures var reply, e := ReplayEval(ids, m, q), Evaluate(ids, q);
            if q.candidateId !in m.cands then reply == Reply(m, Rejected(CandidateNotFound))
            else
              var n, recorded := reply.memory, Record(m, e);
              var c := recorded.cands[q.candidateId];
              && reply.verdict == (if e in m.evals then Noop else Applied)
              && recorded.cands.Keys == n.cands.Keys == m.cands.Keys && RecordedFields(m, recorded, e) && n.evals == recorded.evals
              && (forall id | id in m.cands && id != q.candidateId :: n.cands[id] == m.cands[id])
              && (!Triggers(m, e) ==> n.cands[q.candidateId] == c && n.rules == m.rules)
              && (Triggers(m, e) ==>
                    && n.cands[q.candidateId].status == Demoted
                    && (c.status != Demoted ==> n.cands[q.candidateId].demotedAt == Some(q.at)
                                                && n.cands[q.candidateId].demotionReasons == {"sustained_negative_net_value"})
                    && forall r :: r in n.rules <==> r in m.rules && (c.status == Demoted || r.ruleId != c.ruleId))
  {
    if q.candidateId in m.cands {
      var e := Evaluate(ids, q);
      RecordLeaves(m, e);
      StoredUnchanged(m.evals, e);
      DemoteOne(Record(m, e), q.candidateId, q.at, {"sustained_negative_net_value"});
    }
  }

  lemma StoredUnchanged(evals: seq<Evaluation>, e: Evaluation)
    requires UniqueIds(evals, EvalKey)
    ensures EvalActionOf(evals, e) == Unchanged <==> e in evals
  {
    if e in evals {
      FoundUnderItsId(evals, e);
    }
  }

  // ----- promote ---------------------------------------------------------------------------

  /** The evaluation a promotion is decided on: the stored one the candidate names, else the last of
      its own. */
  ghost predicate Decides(evals: seq<Evaluation>, c: Candidate, e: Evaluation) {
    e in evals
    && if exists x :: x in evals && c.latestEval == Some(x.id) then c.latestEval == Some(e.id)
       else exists i | 0 <= i < |evals| :: evals[i] == e && IsLastOf(evals, i, c.id)
  }

  ghost predicate IsLastOf(evals: seq<Evaluation>, i: nat, id: Id)
    requires i < |evals|
  {
    evals[i].seed.candidateId == id && forall j | i < j < |evals| :: evals[j].seed.candidateId != id
  }

  lemma {:induction false} LastOfIs(evals: seq<Evaluation>, id: Id)
    ensures LastOf(evals, id).Some? ==> exists i | 0 <= i < |evals| :: evals[i] == LastOf(evals, id).value && IsLastOf(evals, i, id)
    ensures LastOf(evals, id).None? ==> forall i | 0 <= i < |evals| :: evals[i].seed.candidateId != id
  {
    if evals != [] {
      var n := |evals| - 1;
      if evals[n].seed.candidateId == id {
        assert IsLastOf(evals, n, id);
      } else {
        LastOfIs(evals[..n], id);
        if LastOf(evals, id).Some? {
          var i :| 0 <= i < n && evals[..n][i] == LastOf(evals, id).value && IsLastOf(evals[..n], i, id);
          assert forall j | i < j < n :: evals[j] == evals[..n][j];
          assert IsLastOf(evals, i, id);
        } else {
          assert forall i | 0 <= i < n :: evals[i] == evals[..n][i];
        }
      }
    }
  }

  lemma GateEvaluationIs(evals: seq<Evaluation>, c: Candidate)
    requires UniqueIds(evals, EvalKey)
    ensures var g := GateEvaluation(evals, c);
            && (g.Some? ==> Decides(evals, c, g.value))
            && forall e | Decides(evals, c, e) :: g == Some(e)
  {
    var k := if c.latestEval.Some? then Find(evals, c.latestEval.value, EvalKey) else -1;
    if k != -1 {
      assert evals[k] in evals && c.latestEval == Some(evals[k].id);
      forall e | Decides(evals, c, e) ensures e == evals[k] {
        FoundUnderItsId(evals, e);
      }
    } else {
      LastOfIs(evals, c.id);
      NoneNamed(evals, c);
      if g :| GateEvaluation(evals, c) == Some(g) {
        var i :| 0 <= i < |evals| && evals[i] == g && IsLastOf(evals, i, c.id);
        forall e | Decides(evals, c, e) ensures e == g {
          var j :| 0 <= j < |evals| && evals[j] == e && IsLastOf(evals, j, c.id);
          assert i == j;
        }
      }
    }
  }

  lemma NoneNamed(evals: seq<Evaluation>, c: Candidate)
    requires c.latestEval.Some? ==> Find(evals, c.latestEval.value, EvalKey) == -1
    ensures !exists x :: x in evals && c.latestEval == Some(x.id)
  {
  }

  /** The decision passed without a regression. */
  ghost predicate PassedOn(m: Memory, c: Candidate) {
    exists e :: Decides(m.evals, c, e) && e.pass && e.regressions == 0
  }

  /** There is evidence, it has not expired, and it is at most the window of days old. */
  predicate FreshAt(c: Candidate, at: Time, window: int) {
    var days := if window < 1 then 1 else if window > 3650 then 3650 else window;
    c.evidence != {} && at <= c.expiresAt && at - c.updatedAt < (days + 1) * DAY
  }

  lemma FreshIff(c: Candidate, at: Time, window: int)
    ensures EvidenceFresh(c, at, window) <==> FreshAt(c, at, window)
  {
    AgeAtMost(at, c.updatedAt, Min(Max(window, 1), 3650));
  }

  /** The verdict of a promotion; a refused one changes nothing. */
  lemma PromoteVerdict(m: Memory, id: Id, at: Time, window: int)
    requires UniqueIds(m.evals, EvalKey)
    ensures var reply := Promote(m, id, at, window);
            && reply.verdict == (if id !in m.cands then Rejected(CandidateNotFound)
                                 else if !PassedOn(m, m.cands[id]) then Rejected(GateNotPassed)
                                 else if !FreshAt(m.cands[id], at, window) then Rejected(EvidenceNotFresh)
                                 else Applied)
            && (reply.verdict != Applied ==> reply.memory == m)
  {
    if id in m.cands {
      GateEvaluationIs(m.evals, m.cands[id]);
      FreshIff(m.cands[id], at, window);
    }
  }

  /** What an applied promotion leaves: the candidate is promoted and says what it was decided on, and
      a rule with its words stands under its rule id, each point of the score worth five thousandths of
      confidence. */
  lemma PromoteLeaves(m: Memory, id: Id, at: Time, window: int, e: Evaluation)
    requires UniqueIds(m.evals, EvalKey) && UniqueIds(m.rules, RuleKey) && Keyed(m)
    requires Promote(m, id, at, window).verdict == Applied && Decides(m.evals, m.cands[id], e)
    ensures var c, n := m.cands[id], Promote(m, id, at, window).memory;
            var d := n.cands[id];
            && n.cands.Keys == m.cands.Keys && (forall k | k in m.cands && k != id :: n.cands[k] == m.cands[k])
            && d.status == Promoted && d.demotedAt == None && d.updatedAt == at
            && d.promotedAt == (if c.promotedAt.Some? then c.promotedAt else Some(at))
            && d.latestEval == Some(e.id) && d.latestNet == Some(e.net) && d.latestStatus == Passed
            && d.confidence == c.confidence && d.streak == c.streak && d.ruleId == c.ruleId
            && (forall r | r in n.rules && r.ruleId != c.ruleId :: r in m.rules)
            && (forall r | r in m.rules && r.ruleId != c.ruleId :: r in n.rules)
            && (exists r :: r in n.rules && InstalledFrom(r, d, at)
                            && r.confidence == Round6(Clamp01(c.confidence + e.net as real / 200000000.0)))
  {
    GateEvaluationIs(m.evals, m.cands[id]);
    var c := m.cands[id];
    PutMembers(m.rules, PromotedRule(c, e, at), RuleKey);
    assert InstalledFrom(PromotedRule(c, e, at), Promote(m, id, at, window).memory.cands[id], at);
  }

  /** A rule that carries a candidate's words and points at it and its latest evaluation. */
  predicate InstalledFrom(r: Rule, c: Candidate, at: Time) {
    && r.ruleId == c.ruleId && r.statement == c.statement && r.scope == c.scope
    && r.sources == c.sources && r.evidence == c.evidence && r.updatedAt == at && r.utility == None
    && c.promotedAt.Some? && r.origin == PromotedFrom(c.id, c.latestEval, c.promotedAt.value)
  }

  /** In whole millionths and whole points of score. */
  lemma PromotedConfidence(m: Memory, id: Id, at: Time, window: int, e: Evaluation, n: int, points: int)
    requires UniqueIds(m.evals, EvalKey) && UniqueIds(m.rules, RuleKey) && Keyed(m)
    requires Promote(m, id, at, window).verdict == Applied && Decides(m.evals, m.cands[id], e)
    requires m.cands[id].confidence == n as real / 1000000.0 && e.net == points * 1000000
    ensures exists r :: r in Promote(m, id, at, window).memory.rules && r.ruleId == m.cands[id].ruleId
                        && r.confidence == Max(0, Min(1000000, n + 5000 * points)) as real / 1000000.0
  {
    PromoteLeaves(m, id, at, window, e);
    var k := Max(0, Min(1000000, n + 5000 * points));
    assert n as real / 1000000.0 + (points * 1000000) as real / 200000000.0 == (n + 5000 * points) as real / 1000000.0;
    Round6Exact(k);
  }

  // ----- demote ----------------------------------------------------------------------------

  /** When a demotion takes place, for which reasons, and that it takes the candidate's rule and
      nothing else. */
  lemma DemoteLeaves(m: Memory, id: Id, at: Time, threshold: int, force: bool, reasons: set<string>)
    ensures var reply := Demote(m, id, at, threshold, force, reasons);
            var n := reply.memory;
            && (reply.verdict == Rejected(CandidateNotFound) <==> id !in m.cands) && n.cands.Keys == m.cands.Keys
            && (id !in m.cands ==> n == m)
            && (id in m.cands ==>
                  var c := m.cands[id];
                  var below := (if c.latestNet.Some? then c.latestNet.value else 0) < threshold;
                  && reply.verdict == (if c.status != Demoted && (force || c.latestStatus == Failed || below) then Applied else Noop)
                  && (reply.verdict == Noop ==> n.cands == m.cands && forall r :: r in n.rules <==> r in m.rules)
                  && (reply.verdict == Applied ==>
                        && n.cands[id] == c.(status := Demoted, demotedAt := Some(at), updatedAt := at,
                                             demotionReasons := n.cands[id].demotionReasons)
                        && (forall k | k in m.cands && k != id :: n.cands[k] == m.cands[k])
                        && (forall r :: r in n.rules <==> r in m.rules && r.ruleId != c.ruleId)
                        && (reasons != {} ==> n.cands[id].demotionReasons == reasons)
                        && (reasons == {} ==> forall s :: s in n.cands[id].demotionReasons <==>
                              || (s == "replay_eval_fail" && c.latestStatus == Failed)
                              || (s == "net_value_below_threshold" && below)
                              || (s == "manual_override" && force))))
  {
    if id in m.cands {
      DemoteOne(m, id, at, DemoteReasons(m.cands[id], threshold, force, reasons));
    }
  }

  // ----- feedback and outcomes -------------------------------------------------------------

  /** The score before a signal. */
  function ScoreOf(u: Option<Utility>): real { if u.Some? then Clamp01(u.value.score) else 0.5 }

  /** A record heard this signal: harm lowers its score and help raises it, unless it is at the end. */
  predicate Moved(before: Option<Utility>, after: Option<Utility>, signalId: Id, harm: bool) {
    after.Some? && after.value.signalId == signalId
    && if harm then after.value.score < ScoreOf(before) || after.value.score == ScoreOf(before) == 0.0
       else after.value.score > ScoreOf(before) || after.value.score == ScoreOf(before) == 1.0
  }

  lemma SignalMoves(u: Option<Utility>, signalId: Id, delta: real, harm: bool)
    requires if harm then delta <= -0.01 else delta >= 0.01
    ensures Moved(u, Some(Signal(u, signalId, delta)), signalId, harm)
  {
    Round6Near(ScoreOf(u) + delta);
    Round6Exact(0);
    Round6Exact(1000000);
  }

  /** In whole millionths a signal moves the score by exactly its amount, within zero and one. */
  lemma SignalMovesBy(u: Option<Utility>, signalId: Id, delta: real, n: int, amount: int)
    requires 0 <= n <= 1000000 && ScoreOf(u) == n as real / 1000000.0 && delta == amount as real / 1000000.0
    ensures Signal(u, signalId, delta).score == Max(0, Min(1000000, n + amount)) as real / 1000000.0
  {
    assert n as real / 1000000.0 + amount as real / 1000000.0 == (n + amount) as real / 1000000.0;
    Round6Exact(Max(0, Min(1000000, n + amount)));
  }

  /** The candidate or its rule is named by the feedback. */
  predicate Named(f: FeedbackRecord, c: Candidate) {
    f.candidateId == Some(c.id) || f.ruleId == Some(c.ruleId)
  }

  predicate Replayed(m: Memory, f: FeedbackRecord) { f.id in m.feedback && m.feedback[f.id] == f }

  /** After its feedback a candidate that was not named is as it was; one that was named has heard it. */
  predicate HeardFrom(f: FeedbackRecord, c: Candidate, d: Candidate) {
    if Named(f, c) && !Heard(c.utility, f.id) then Moved(c.utility, d.utility, f.id, f.harmful) else d.utility == c.utility
  }

  lemma SignalledCandidates(m: Memory, f: FeedbackRecord, id: Id)
    requires Keyed(m) && id in m.cands
    ensures var delta := if f.harmful then -0.18 else 0.12;
            var c := m.cands[id];
            var d := SignalTarget(c, AsList(f.ruleId), AsList(f.candidateId), f.id, delta, f.at);
            && HeardFrom(f, c, d) && d == c.(utility := d.utility, updatedAt := d.updatedAt)
            && d.updatedAt == (if Named(f, c) && !Heard(c.utility, f.id) then f.at else c.updatedAt)
  {
    SignalMoves(m.cands[id].utility, f.id, if f.harmful then -0.18 else 0.12, f.harmful);
  }

  lemma SignalledRules(m: Memory, f: FeedbackRecord, r: Rule)
    ensures var delta := if f.harmful then -0.18 else 0.12;
            HeardRule(f, r, SignalRule(r, AsList(f.ruleId), f.id, delta))
  {
    SignalMoves(r.utility, f.id, if f.harmful then -0.18 else 0.12, f.harmful);
  }

  /** The same rule but for its utility, which moves only when the rule is named and had not heard. */
  predicate HeardRule(f: FeedbackRecord, r: Rule, s: Rule) {
    s == r.(utility := s.utility)
    && if f.ruleId == Some(r.ruleId) && !Heard(r.utility, f.id) then Moved(r.utility, s.utility, f.id, f.harmful)
       else s == r
  }

  /** What new feedback does to candidates: harmful feedback demotes exactly those it names, helpful
      feedback demotes nobody, and only those named hear it. */
  lemma FeedbackOnCandidates(m: Memory, f: FeedbackRecord, id: Id)
    requires Keyed(m) && !Replayed(m, f) && id in m.cands
    ensures var c, n := m.cands[id], Feedback(m, f).memory;
            && n.cands.Keys == m.cands.Keys && n.feedback == m.feedback[f.id := f] && Feedback(m, f).verdict == Applied
            && HeardFrom(f, c, n.cands[id])
            && (!Named(f, c) ==> n.cands[id] == c)
            && (!f.harmful ==> n.cands[id].status == c.status && n.cands[id] == c.(utility := n.cands[id].utility, updatedAt := n.cands[id].updatedAt))
            && (f.harmful && Named(f, c) && c.status != Demoted ==>
                  n.cands[id] == c.(status := Demoted, demotedAt := Some(f.at), updatedAt := f.at,
                                    demotionReasons := {"explicit_harmful_feedback"}, utility := n.cands[id].utility))
            && (c.status == Demoted ==> n.cands[id].status == Demoted && n.cands[id].demotedAt == c.demotedAt)
  {
    var stored := m.(feedback := m.feedback[f.id := f]);
    var ruleIds, candidateIds := AsList(f.ruleId), AsList(f.candidateId);
    SignalledCandidates(m, f, id);
    var signalled := ApplyUtility(stored, ruleIds, candidateIds, f.id, if f.harmful then -0.18 else 0.12, f.at);
    assert signalled.cands[id].ruleId == m.cands[id].ruleId;
    assert id in Targets(signalled, ruleIds, candidateIds) <==> Named(f, m.cands[id]);
  }

  /** A candidate that harmful feedback newly demotes. */
  ghost predicate LosesRule(m: Memory, f: FeedbackRecord, ruleId: Id) {
    f.harmful && exists id :: id in m.cands && Named(f, m.cands[id]) && m.cands[id].status != Demoted && m.cands[id].ruleId == ruleId
  }

  /** And to rules: exactly those of newly demoted candidates go, and the others stay, having heard
      it at most. */
  lemma FeedbackOnRules(m: Memory, f: FeedbackRecord)
    requires Keyed(m) && !Replayed(m, f)
    ensures var n := Feedback(m, f).memory;
            && (forall s | s in n.rules :: exists r :: r in m.rules && HeardRule(f, r, s) && !LosesRule(m, f, r.ruleId))
            && (forall r | r in m.rules && !LosesRule(m, f, r.ruleId) :: exists s :: s in n.rules && HeardRule(f, r, s))
  {
    var delta := if f.harmful then -0.18 else 0.12;
    var ruleIds, candidateIds := AsList(f.ruleId), AsList(f.candidateId);
    var stored := m.(feedback := m.feedback[f.id := f]);
    var signalled := ApplyUtility(stored, ruleIds, candidateIds, f.id, delta, f.at);
    var n := Feedback(m, f).memory;
    forall r | r in m.rules ensures HeardRule(f, r, SignalRule(r, ruleIds, f.id, delta)) {
      SignalledRules(m, f, r);
    }
    if f.harmful {
      LostRules(m, f);
    }
    forall s | s in n.rules ensures exists r :: r in m.rules && HeardRule(f, r, s) && !LosesRule(m, f, r.ruleId) {
      var i :| 0 <= i < |signalled.rules| && signalled.rules[i] == s;
      assert m.rules[i] in m.rules && s == SignalRule(m.rules[i], ruleIds, f.id, delta);
    }
    forall r | r in m.rules && !LosesRule(m, f, r.ruleId) ensures exists s :: s in n.rules && HeardRule(f, r, s) {
      var i :| 0 <= i < |m.rules| && m.rules[i] == r;
      assert signalled.rules[i] in signalled.rules && signalled.rules[i] == SignalRule(r, ruleIds, f.id, delta);
    }
  }

  lemma LostRules(m: Memory, f: FeedbackRecord)
    requires Keyed(m) && f.harmful
    ensures var signalled := ApplyUtility(m.(feedback := m.feedback[f.id := f]), AsList(f.ruleId), AsList(f.candidateId), f.id, -0.18, f.at);
            var lost := RuleIdsOf(signalled, Demotable(signalled, Targets(signalled, AsList(f.ruleId), AsList(f.candidateId))));
            forall ruleId :: ruleId in lost <==> LosesRule(m, f, ruleId)
  {
    var ruleIds, candidateIds := AsList(f.ruleId), AsList(f.candidateId);
    var signalled := ApplyUtility(m.(feedback := m.feedback[f.id := f]), ruleIds, candidateIds, f.id, -0.18, f.at);
    var hit := Demotable(signalled, Targets(signalled, ruleIds, candidateIds));
    forall id ensures id in hit <==> id in m.cands && Named(f, m.cands[id]) && m.cands[id].status != Demoted {
      if id in m.cands {
        assert signalled.cands[id].ruleId == m.cands[id].ruleId && signalled.cands[id].status == m.cands[id].status;
      }
    }
    forall ruleId ensures ruleId in RuleIdsOf(signalled, hit) <==> LosesRule(m, f, ruleId) {
      if LosesRule(m, f, ruleId) {
        var id :| id in m.cands && Named(f, m.cands[id]) && m.cands[id].status != Demoted && m.cands[id].ruleId == ruleId;
        assert id in hit && signalled.cands[id].ruleId == ruleId;
      }
      if ruleId in RuleIdsOf(signalled, hit) {
        var id :| id in hit && signalled.cands[id].ruleId == ruleId;
        assert m.cands[id].ruleId == ruleId;
      }
    }
  }

  /** Harmful feedback takes eighteen hundredths off a score and helpful feedback adds twelve, within
      zero and one. */
  lemma FeedbackScore(m: Memory, f: FeedbackRecord, id: Id, n: int)
    requires Keyed(m) && !Replayed(m, f) && id in m.cands && Named(f, m.cands[id]) && !Heard(m.cands[id].utility, f.id)
    requires 0 <= n <= 1000000 && ScoreOf(m.cands[id].utility) == n as real / 1000000.0
    ensures var u := Feedback(m, f).memory.cands[id].utility;
            u.Some? && u.value.score == (if f.harmful then Max(0, n - 180000) else Min(1000000, n + 120000)) as real / 1000000.0
  {
    var c := m.cands[id];
    SignalMovesBy(c.utility, f.id, if f.harmful then -0.18 else 0.12, n, if f.harmful then -180000 else 120000);
    assert SignalTarget(c, AsList(f.ruleId), AsList(f.candidateId), f.id, if f.harmful then -0.18 else 0.12, f.at).utility
        == Some(Signal(c.utility, f.id, if f.harmful then -0.18 else 0.12));
    var stored := m.(feedback := m.feedback[f.id := f]);
    assert Feedback(m, f).memory.cands[id].utility
        == SignalTarget(stored.cands[id], AsList(f.ruleId), AsList(f.candidateId), f.id, if f.harmful then -0.18 else 0.12, f.at).utility;
  }

  /** What a new outcome does: the candidates and rules it used hear it, a failure as harm, and nothing
      else changes. */
  lemma OutcomeLeaves(m: Memory, o: OutcomeRecord)
    requires !(o.id in m.outcomes && m.outcomes[o.id] == o)
    ensures var n := Outcome(m, o).memory;
            && n.cands.Keys == m.cands.Keys && n.outcomes == m.outcomes[o.id := o] && |n.rules| == |m.rules|
            && (forall id | id in m.cands ::
                  var c, d := m.cands[id], n.cands[id];
                  if c.ruleId in o.usedRuleIds && !Heard(c.utility, o.id) then
                    d == c.(utility := d.utility, updatedAt := o.at) && Moved(c.utility, d.utility, o.id, o.failure)
                  else d == c)
            && (forall i | 0 <= i < |m.rules| ::
                  var r, s := m.rules[i], n.rules[i];
                  if r.ruleId in o.usedRuleIds && !Heard(r.utility, o.id) then
                    s == r.(utility := s.utility) && Moved(r.utility, s.utility, o.id, o.failure)
                  else s == r)
            && n.evals == m.evals && n.feedback == m.feedback && n.ledger == m.ledger && n.audit == m.audit
  {
    var delta := if o.failure then -0.2 else 0.08;
    forall id | id in m.cands ensures Moved(m.cands[id].utility, Some(Signal(m.cands[id].utility, o.id, delta)), o.id, o.failure) {
      SignalMoves(m.cands[id].utility, o.id, delta, o.failure);
    }
    forall i | 0 <= i < |m.rules| ensures Moved(m.rules[i].utility, Some(Signal(m.rules[i].utility, o.id, delta)), o.id, o.failure) {
      SignalMoves(m.rules[i].utility, o.id, delta, o.failure);
    }
  }

  /** A failure takes a fifth off the score, a success adds eight hundredths. */
  lemma OutcomeScore(m: Memory, o: OutcomeRecord, id: Id, n: int)
    requires !(o.id in m.outcomes && m.outcomes[o.id] == o)
    requires id in m.cands && m.cands[id].ruleId in o.usedRuleIds && !Heard(m.cands[id].utility, o.id)
    requires 0 <= n <= 1000000 && ScoreOf(m.cands[id].utility) == n as real / 1000000.0
    ensures var u := Outcome(m, o).memory.cands[id].utility;
            u.Some? && u.value.score == (if o.failure then Max(0, n - 200000) else Min(1000000, n + 80000)) as real / 1000000.0
  {
    SignalMovesBy(m.cands[id].utility, o.id, if o.failure then -0.2 else 0.08, n, if o.failure then -200000 else 80000);
  }

  // ----- shadow_write ----------------------------------------------------------------------

  predicate Complete(w: WriteRequest) { w.statement != "" && w.sources != {} && w.evidence != {} }

  /** The place of the first request that is not complete, or behind the last. */
  function FirstIncomplete(batch: seq<WriteRequest>): (k: nat)
    ensures k <= |batch| && (forall i | 0 <= i < k :: Complete(batch[i])) && (k < |batch| ==> !Complete(batch[k]))
  {
    if batch == [] || !Complete(batch[0]) then 0 else 1 + FirstIncomplete(batch[1..])
  }

  /** A batch is applied exactly when every request is complete; otherwise the first one that is not
      says why, and those before it are written. */
  lemma {:induction false} WriteVerdict(ids: IdScheme, m: Memory, batch: seq<WriteRequest>, at: Time)
    ensures var reply, k := ShadowWrite(ids, m, batch, at), FirstIncomplete(batch);
            && reply.verdict == (if k == |batch| then Applied
                                 else if batch[k].statement == "" then Rejected(MissingStatement)
                                 else Rejected(MissingEvidence))
            && reply.memory == ShadowWrite(ids, m, batch[..k], at).memory
    decreases batch
  {
    if batch != [] {
      var k := FirstIncomplete(batch);
      if Complete(batch[0]) {
        WriteVerdict(ids, WriteOne(m, NormalizeShadowCandidate(ids, batch[0]), at), batch[1..], at);
        assert batch[..k][0] == batch[0] && batch[..k][1..] == batch[1..][..k - 1];
      } else {
        assert batch[..0] == [];
      }
    }
  }

  /** What writing one request leaves: a new candidate starts as an unevaluated shadow, and a stored one
      takes over words, confidence and expiry, keeps its history and stays promoted if it was. */
  lemma WriteLeaves(ids: IdScheme, m: Memory, w: WriteRequest, at: Time)
    ensures var incoming := NormalizeShadowCandidate(ids, w);
            var n := WriteOne(m, incoming, at);
            var d := n.cands[incoming.id];
            && (w.candidateId.Some? ==> incoming.id == w.candidateId.value) && (w.ruleId.Some? ==> d.ruleId == w.ruleId.value)
            && n == m.(cands := m.cands[incoming.id := d])
            && d.statement == w.statement && d.scope == w.scope && d.expiresAt == w.expiresAt
            && d.confidence == (if w.confidence < 0.0 then 0.0 else if w.confidence > 1.0 then 1.0 else w.confidence)
            && if incoming.id in m.cands then
                 var c := m.cands[incoming.id];
                 && d.status == (if c.status == Promoted then Promoted else Shadow) && d.updatedAt == at
                 && d.sources == c.sources + w.sources && d.evidence == c.evidence + w.evidence
                 && d == c.(ruleId := d.ruleId, statement := d.statement, scope := d.scope, confidence := d.confidence,
                            sources := d.sources, evidence := d.evidence, expiresAt := d.expiresAt,
                            updatedAt := d.updatedAt, status := d.status)
               else
                 && d.status == Shadow && d.sources == w.sources && d.evidence == w.evidence
                 && d.createdAt == d.updatedAt == d.decayCursor == w.createdAt
                 && d.latestEval == None && d.latestStatus == Unevaluated && d.latestNet == None && d.streak == 0
                 && d.promotedAt == None && d.demotedAt == None && d.demotionReasons == {}
                 && d.decayTicks == 0 && d.decayDays == 0 && d.adjustedBy == None && d.utility == None
  {
  }

  // ----- addweight -------------------------------------------------------------------------

  /** What a call that writes leaves: in whole millionths the confidence moves by exactly the delta,
      within zero and one, the rule under the candidate's rule id takes it over, and nothing else
      changes. */
  lemma AdjustmentLeaves(ids: IdScheme, m: Memory, givenId: Option<Id>, request: Adjustment, n: int)
    requires UniqueIds(m.rules, RuleKey) && Wrote(AddWeight(ids, m, givenId, request).verdict)
    requires request.candidateId in m.cands && m.cands[request.candidateId].confidence == n as real / 1000000.0 && 0 <= n <= 1000000
    ensures var c, k := m.cands[request.candidateId], AddWeight(ids, m, givenId, request).memory;
            var confidence := Max(0, Min(1000000, n + request.delta)) as real / 1000000.0;
            && k.cands == m.cands[request.candidateId :=
                 c.(confidence := confidence, updatedAt := request.at, adjustedBy := Some(AdjustmentId(ids, givenId, request)))]
            && |k.rules| == |m.rules|
            && forall i | 0 <= i < |m.rules| ::
                 k.rules[i] == if m.rules[i].ruleId == c.ruleId then m.rules[i].(confidence := confidence, updatedAt := request.at)
                               else m.rules[i]
  {
    AddWeightCases(ids, m, givenId, request);
    var c := m.cands[request.candidateId];
    ReweightedWhole(c, n, AdjustmentId(ids, givenId, request), Normalized(request));
    ReweightedRules(m.rules, c.ruleId, Reweighted(c, AdjustmentId(ids, givenId, request), Normalized(request)).confidence, request.at);
  }

  lemma ReweightedRules(rules: seq<Rule>, ruleId: Id, confidence: real, at: Time)
    requires UniqueIds(rules, RuleKey)
    ensures var next := ReweightRule(rules, ruleId, confidence, at);
            |next| == |rules|
            && forall i | 0 <= i < |rules| ::
                 next[i] == if rules[i].ruleId == ruleId then rules[i].(confidence := confidence, updatedAt := at) else rules[i]
  {
    var j := Find(rules, ruleId, RuleKey);
    assert forall i | 0 <= i < |rules| && j != -1 && i != j :: RuleKey(rules[i]).id != RuleKey(rules[j]).id;
    assert j == -1 ==> forall i | 0 <= i < |rules| :: RuleKey(rules[i]).id != ruleId;
  }

  /** The reason codes on record: the request's own, its direction and that it was made by hand. */
  lemma RecordedReasons(request: Adjustment)
    ensures var p := Normalized(request);
            && p == request.(reasonCodes := p.reasonCodes)
            && (forall s :: s in p.reasonCodes <==>
                  || s in request.reasonCodes || s == "addweight_manual"
                  || s == (if request.delta < 0 then "human_weight_decrease" else "human_weight_increase"))
  {
  }

  /** What the audit event of an adjustment says of confidences and of the rule. */
  lemma AdjustmentEvent(ids: IdScheme, m: Memory, id: Id, p: Adjustment, n: int)
    requires p.candidateId in m.cands && m.cands[p.candidateId].confidence == n as real / 1000000.0 && 0 <= n <= 1000000
    requires UniqueIds(m.rules, RuleKey)
    ensures var seed, next := WeightEvent(ids, m, id, p).seed, Max(0, Min(1000000, n + p.delta));
            && seed.operation == "addweight" && seed.entity == p.candidateId && seed.reasons == p.reasonCodes && seed.at == p.at
            && seed.detail.Weight? && seed.detail.adjustmentId == id && seed.detail.digest == p
            && seed.detail.previous == n && seed.detail.next == next && seed.detail.applied == next - n
            && (seed.detail.ruleAction == RuleSkipped <==> !HasRule(m.rules, m.cands[p.candidateId].ruleId))
            && (seed.detail.ruleAction == RuleUnchanged <==>
                  exists r :: r in m.rules && r.ruleId == m.cands[p.candidateId].ruleId
                              && r.confidence == next as real / 1000000.0 && r.updatedAt == p.at)
  {
    var next := Max(0, Min(1000000, n + p.delta));
    ReweightedWhole(m.cands[p.candidateId], n, id, p);
    MicrosOf(n);
    MicrosOf(next);
    assert next as real / 1000000.0 - n as real / 1000000.0 == (next - n) as real / 1000000.0;
    MicrosOf(next - n);
    RuleActionIs(m.rules, m.cands[p.candidateId].ruleId, next as real / 1000000.0, p.at);
  }

  lemma RuleActionIs(rules: seq<Rule>, ruleId: Id, confidence: real, at: Time)
    requires UniqueIds(rules, RuleKey)
    ensures var a := RuleActionOf(rules, ruleId, confidence, at);
            && (a == RuleSkipped <==> !HasRule(rules, ruleId))
            && (a == RuleUnchanged <==> exists r :: r in rules && r.ruleId == ruleId && r.confidence == confidence && r.updatedAt == at)
  {
    var k := Find(rules, ruleId, RuleKey);
    if k != -1 {
      assert rules[k] in rules && RuleKey(rules[k]).id == ruleId;
      forall r | r in rules && r.ruleId == ruleId ensures r == rules[k] {
        var i :| 0 <= i < |rules| && rules[i] == r;
        assert RuleKey(rules[i]).id == RuleKey(rules[k]).id;
      }
    }
  }

  lemma MicrosOf(n: int)
    ensures Micros(n as real / 1000000.0) == n
  {
    assert n as real / 1000000.0 * 1000000.0 + 0.5 == n as real + 0.5;
    assert (n as real + 0.5).Floor == n;
  }

  // ----- manual override and curation ------------------------------------------------------

  /** The rule an override installs carries the candidate's words and confidence. */
  predicate Overrides(r: Rule, c: Candidate, at: Time) {
    && r.ruleId == c.ruleId && r.statement == c.statement && r.scope == c.scope
    && r.sources == c.sources && r.evidence == c.evidence && r.updatedAt == at && r.utility == None
    && r.confidence == Round6(Clamp01(c.confidence))
    && r.origin == PromotedFrom(c.id, c.latestEval, if c.promotedAt.Some? then c.promotedAt.value else at)
  }

  /** A manual override promotes exactly the candidates named by id or rule id, each with its rule. */
  lemma OverrideOnCandidates(m: Memory, ruleIds: seq<Id>, candidateIds: seq<Id>, at: Time, id: Id)
    requires Linked(m) && id in m.cands
    ensures var c, n := m.cands[id], Override(m, ruleIds, candidateIds, at);
            && n.cands.Keys == m.cands.Keys && n.evals == m.evals
            && if id in candidateIds || c.ruleId in ruleIds then
                 && n.cands[id] == (if c.status == Promoted then c
                                    else c.(status := Promoted, promotedAt := Some(if c.promotedAt.Some? then c.promotedAt.value else at),
                                            demotedAt := None, demotionReasons := {}, updatedAt := at))
                 && exists r :: r in n.rules && Overrides(r, n.cands[id], at)
               else n.cands[id] == c
  {
    var targets := Listed(Targets(m, ruleIds, candidateIds));
    OverrideEachCandidates(m, targets, at);
    OverrideEachTargets(m, targets, at);
    OverrideEachRules(m, targets, at);
    assert id in targets <==> id in candidateIds || m.cands[id].ruleId in ruleIds;
    var r := OverrideRuleFor(m, id, at);
    assert Overrides(r, OverriddenCandidate(m.cands[id], at), at);
  }

  ghost predicate NamedRuleId(m: Memory, ruleIds: seq<Id>, candidateIds: seq<Id>, ruleId: Id) {
    exists id :: id in m.cands && (id in candidateIds || m.cands[id].ruleId in ruleIds) && m.cands[id].ruleId == ruleId
  }

  lemma {:induction false} OverrideEachKeepsRules(m: Memory, targets: seq<Id>, at: Time, r: Rule)
    requires Linked(m) && Ascending(targets) && r in m.rules
    requires forall id | id in targets && id in m.cands :: m.cands[id].ruleId != r.ruleId
    ensures r in OverrideEach(m, targets, at).rules
  {
    if targets != [] {
      var front, id := targets[..|targets| - 1], targets[|targets| - 1];
      assert id in targets && id !in front && forall k | k in front :: k in targets;
      OverrideEachKeepsRules(m, front, at, r);
      OverrideEachCandidates(m, front, at);
      OverrideEachKeepsLinks(m, front, at);
      var before := OverrideEach(m, front, at);
      if id in before.cands {
        PutMembers(before.rules, OverrideRule(OverriddenCandidate(before.cands[id], at), at), RuleKey);
      }
    }
  }

  /** And leaves every rule that stands under none of their rule ids, adding no other. */
  lemma OverrideOnRules(m: Memory, ruleIds: seq<Id>, candidateIds: seq<Id>, at: Time, r: Rule)
    requires Linked(m) && !NamedRuleId(m, ruleIds, candidateIds, r.ruleId)
    ensures r in Override(m, ruleIds, candidateIds, at).rules <==> r in m.rules
  {
    var targets := Listed(Targets(m, ruleIds, candidateIds));
    OverrideEachRules(m, targets, at);
    forall id | id in targets && id in m.cands ensures m.cands[id].ruleId != r.ruleId {
      assert id in candidateIds || m.cands[id].ruleId in ruleIds;
    }
    if r in m.rules {
      OverrideEachKeepsRules(m, targets, at, r);
    }
  }

  /** The last winner with a statement under a rule id. */
  function LastWinner(winners: seq<Winner>, ruleId: Id): Option<Winner> {
    if winners == [] then None
    else
      var w := winners[|winners| - 1];
      if w.statement != "" && w.ruleId == ruleId then Some(w) else LastWinner(winners[..|winners| - 1], ruleId)
  }

  predicate CuratedFrom(r: Rule, w: Winner, at: Time) {
    r == Rule(w.ruleId, w.statement, w.scope, Round6(Clamp01(w.confidence)), w.sources, w.evidence, Curated(w.candidateId), at, None)
  }

  lemma {:induction false} CurateEachLeaves(rules: seq<Rule>, winners: seq<Winner>, at: Time)
    requires UniqueIds(rules, RuleKey)
    ensures UniqueIds(CurateEach(rules, winners, at), RuleKey)
    ensures forall r :: r in CurateEach(rules, winners, at) <==>
              var w := LastWinner(winners, r.ruleId); if w.Some? then CuratedFrom(r, w.value, at) else r in rules
  {
    if winners != [] {
      var front, w := winners[..|winners| - 1], winners[|winners| - 1];
      CurateEachLeaves(rules, front, at);
      PutMembers(CurateEach(rules, front, at), CuratedRule(w, at), RuleKey);
    }
  }

  /** Curation leaves under each rule id the last winner with a statement, or the rule that was there. */
  lemma CurateLeaves(m: Memory, winners: seq<Winner>, at: Time, r: Rule)
    requires UniqueIds(m.rules, RuleKey)
    ensures var n, w := Curate(m, winners, at), LastWinner(winners, r.ruleId);
            && n == m.(rules := n.rules) && UniqueIds(n.rules, RuleKey)
            && (r in n.rules <==> if w.Some? then CuratedFrom(r, w.value, at) else r in m.rules)
  {
    CurateEachLeaves(m.rules, winners, at);
    SortUnique(CurateEach(m.rules, winners, at), RuleKey);
  }
}
