/** Attribution of outcomes to rules, and the re-ranking of the rulebook's head by it. */
module Attribution {
  import opened Lifecycle
  import opened Numbers
  import opened Timeline
  import opened StableSort

  const DIRECTION_THRESHOLD := 0.34
  const MIN_CONFIDENCE := 0.6
  const MIN_EFFECT_SIZE := 0.34
  const MAX_NUDGE := 0.25
  const MAX_TOP_K := 32

  datatype Tally = Tally(helpful: nat, harmful: nat, pending: nat)

  datatype Direction = Neutral | Helpful | Harmful
  datatype Band = Suppress | NoBand | Boost
  datatype Nudge = Nudge(eligible: bool, band: Band, value: real)

  // ----- the evidence about a rule ----------------------------------------------------------

  /** An outcome is traced when it names a pack or usages. */
  predicate Relevant(o: OutcomeRecord, ruleId: Id) { ruleId in o.usedRuleIds && o.traced }

  function CountOf(outcomes: seq<OutcomeRecord>, ruleId: Id): Tally {
    if outcomes == [] then Tally(0, 0, 0)
    else
      var t, o := CountOf(outcomes[..|outcomes| - 1], ruleId), outcomes[|outcomes| - 1];
      if !Relevant(o, ruleId) then t
      else if o.provisional then t.(pending := t.pending + 1)
      else if o.failure then t.(harmful := t.harmful + 1)
      else t.(helpful := t.helpful + 1)
  }

  method TallyOutcomes(outcomes: seq<OutcomeRecord>, ruleId: Id) returns (t: Tally)
    ensures t == CountOf(outcomes, ruleId)
  {
    var relevant := [];
    for i := 0 to |outcomes|
      invariant CountOf(relevant, ruleId) == CountOf(outcomes[..i], ruleId)
      invariant forall o | o in relevant :: Relevant(o, ruleId)
    {
      assert outcomes[..i + 1][..i] == outcomes[..i];
      if Relevant(outcomes[i], ruleId) {
        assert (relevant + [outcomes[i]])[..|relevant|] == relevant;
        relevant := relevant + [outcomes[i]];
      }
    }
    assert outcomes[..|outcomes|] == outcomes;
    t := Tally(0, 0, 0);
    for i := 0 to |relevant|
      invariant t == CountOf(relevant[..i], ruleId)
    {
      assert relevant[..i + 1][..i] == relevant[..i];
      var o := relevant[i];
      assert o in relevant;
      if o.provisional {
        t := t.(pending := t.pending + 1);
      } else if o.failure {
        t := t.(harmful := t.harmful + 1);
      } else {
        t := t.(helpful := t.helpful + 1);
      }
    }
    assert relevant[..|relevant|] == relevant;
  }

  /** A traced outcome that used the rule and is pending, or settled as a failure or a success. */
  predicate EndedAs(o: OutcomeRecord, ruleId: Id, provisional: bool, failure: Option<bool>) {
    && ruleId in o.usedRuleIds && o.traced && o.provisional == provisional
    && (failure.Some? ==> o.failure == failure.value)
  }

  function PlacesOf(outcomes: seq<OutcomeRecord>, ruleId: Id, provisional: bool, failure: Option<bool>): set<nat> {
    set i: nat | i < |outcomes| && EndedAs(outcomes[i], ruleId, provisional, failure)
  }

  lemma PlacesGrow(front: seq<OutcomeRecord>, last: OutcomeRecord, ruleId: Id, provisional: bool, failure: Option<bool>)
    ensures |PlacesOf(front + [last], ruleId, provisional, failure)| == |PlacesOf(front, ruleId, provisional, failure)|
            + if EndedAs(last, ruleId, provisional, failure) then 1 else 0
  {
    var whole := front + [last];
    var all, before := PlacesOf(whole, ruleId, provisional, failure), PlacesOf(front, ruleId, provisional, failure);
    assert whole[|front|] == last;
    forall i: nat | i != |front| ensures i in all <==> i in before {
      if i < |front| { assert whole[i] == front[i]; }
    }
    if EndedAs(last, ruleId, provisional, failure) {
      assert all == before + {|front|};
    } else {
      assert all == before;
    }
  }

  /** Helpful and harmful are the settled successes and failures, pending those that are not settled. */
  lemma {:induction false} CountsByStatus(outcomes: seq<OutcomeRecord>, ruleId: Id)
    ensures CountOf(outcomes, ruleId).helpful == |PlacesOf(outcomes, ruleId, false, Some(false))|
    ensures CountOf(outcomes, ruleId).harmful == |PlacesOf(outcomes, ruleId, false, Some(true))|
    ensures CountOf(outcomes, ruleId).pending == |PlacesOf(outcomes, ruleId, true, None)|
  {
    if outcomes == [] {
      assert PlacesOf([], ruleId, false, Some(false)) == PlacesOf([], ruleId, false, Some(true)) == PlacesOf([], ruleId, true, None) == {};
    } else {
      var front, last := outcomes[..|outcomes| - 1], outcomes[|outcomes| - 1];
      assert outcomes == front + [last];
      CountsByStatus(front, ruleId);
      PlacesGrow(front, last, ruleId, false, Some(false));
      PlacesGrow(front, last, ruleId, false, Some(true));
      PlacesGrow(front, last, ruleId, true, None);
    }
  }

  /** Some evaluation of the candidate the rule came from failed or regressed on safety. */
  predicate RegressionHistory(m: Memory, rule: Rule) {
    rule.origin.PromotedFrom?
    && exists i | 0 <= i < |m.evals| ::
         m.evals[i].seed.candidateId == rule.origin.candidateId && (m.evals[i].regressions > 0 || !m.evals[i].pass)
  }

  // ----- scoring ---------------------------------------------------------------------------

  function Support(t: Tally): nat { t.helpful + t.harmful }

  function Fraction(n: int, d: nat): real
    requires d > 0
  {
    n as real / d as real
  }

  function EffectSize(t: Tally): real {
    if Support(t) > 0 then Round6(Fraction(t.helpful - t.harmful, Support(t))) else 0.0
  }

  function PendingPenalty(t: Tally): real {
    if t.pending > 0 then MaxReal(0.5, 1.0 - Fraction(t.pending, Support(t) + t.pending)) else 1.0
  }

  function Confidence(t: Tally, minSupport: nat): real
    requires minSupport > 0
  {
    var supportConfidence := MinReal(Fraction(Support(t), minSupport), 1.0);
    var signalConfidence := 0.5 + Abs(EffectSize(t)) / 2.0;
    var balancePenalty := if t.helpful > 0 && t.harmful > 0 then 0.5 else 1.0;
    Round6(Clamp01(Times(Times(Times(supportConfidence, signalConfidence), balancePenalty), PendingPenalty(t))))
  }

  function DirectionOf(t: Tally, minSupport: nat): Direction {
    if Support(t) < minSupport then Neutral
    else if EffectSize(t) >= DIRECTION_THRESHOLD then Helpful
    else if EffectSize(t) <= -DIRECTION_THRESHOLD then Harmful
    else Neutral
  }

  predicate Eligible(t: Tally, minSupport: nat, history: bool)
    requires minSupport > 0
  {
    Support(t) >= minSupport && Confidence(t, minSupport) >= MIN_CONFIDENCE && !history
    && Abs(EffectSize(t)) >= MIN_EFFECT_SIZE
  }

  function NudgeOf(t: Tally, minSupport: nat, history: bool): Nudge
    requires minSupport > 0
  {
    var eligible, direction := Eligible(t, minSupport, history), DirectionOf(t, minSupport);
    var band :=
      if history then Suppress
      else if !eligible || direction == Neutral then NoBand
      else if direction == Helpful then Boost
      else Suppress;
    var value :=
      if band == Suppress && history then -MAX_NUDGE
      else if eligible then
        Round6(MaxReal(-MAX_NUDGE, MinReal(MAX_NUDGE, Times(EffectSize(t), Confidence(t, minSupport)))))
      else 0.0;
    Nudge(eligible, band, value)
  }

  // ----- what the nudges can be --------------------------------------------------------------

  lemma FractionTimes(n: int, d: nat)
    requires d > 0
    ensures Times(Fraction(n, d), d as real) == n as real
  {
  }

  lemma TimesCompare(f: real, g: real, d: real)
    requires d > 0.0
    ensures f <= g <==> Times(f, d) <= Times(g, d)
  {
  }

  lemma FractionCompare(n: int, d: nat, g: real)
    requires d > 0
    ensures Fraction(n, d) <= g <==> n as real <= Times(g, d as real)
    ensures Fraction(n, d) >= g <==> n as real >= Times(g, d as real)
  {
    FractionTimes(n, d);
    TimesCompare(Fraction(n, d), g, d as real);
    TimesCompare(g, Fraction(n, d), d as real);
  }

  lemma FractionBounds(n: int, d: nat)
    requires d > 0 && -(d as int) <= n <= d
    ensures -1.0 <= Fraction(n, d) <= 1.0
    ensures n == d ==> Fraction(n, d) == 1.0
    ensures n == -(d as int) ==> Fraction(n, d) == -1.0
    ensures n >= 0 ==> Fraction(n, d) >= 0.0
  {
    FractionCompare(n, d, 1.0);
    FractionCompare(n, d, -1.0);
    FractionCompare(n, d, 0.0);
  }

  lemma EffectBounds(t: Tally)
    ensures -1.0 <= EffectSize(t) <= 1.0
    ensures t.harmful == 0 < t.helpful ==> EffectSize(t) == 1.0
    ensures t.helpful == 0 < t.harmful ==> EffectSize(t) == -1.0
  {
    if Support(t) > 0 {
      var f := Fraction(t.helpful - t.harmful, Support(t));
      FractionBounds(t.helpful - t.harmful, Support(t));
      Round6Monotone(-1.0, f);
      Round6Monotone(f, 1.0);
      Round6Exact(1000000);
      Round6Exact(-1000000);
    }
  }

  /** Mixed outcomes never make a rule eligible: the balance penalty alone keeps the confidence low. */
  lemma MixedIsNotEligible(t: Tally, minSupport: nat, history: bool)
    requires minSupport > 0 && t.helpful > 0 && t.harmful > 0
    ensures !Eligible(t, minSupport, history)
  {
    EffectBounds(t);
    var support := MinReal(Fraction(Support(t), minSupport), 1.0);
    var signal := 0.5 + Abs(EffectSize(t)) / 2.0;
    PenaltyBounds(t);
    PositiveFraction(Support(t), minSupport);
    ProductBound(support, signal, 0.5, PendingPenalty(t));
    var product := Times(Times(Times(support, signal), 0.5), PendingPenalty(t));
    Round6Monotone(Clamp01(product), 0.5);
    Round6Exact(500000);
  }

  lemma PositiveFraction(n: nat, d: nat)
    requires d > 0
    ensures Fraction(n, d) >= 0.0
    ensures n >= d ==> Fraction(n, d) >= 1.0
  {
    FractionCompare(n, d, 0.0);
    FractionCompare(n, d, 1.0);
  }

  lemma PenaltyBounds(t: Tally)
    ensures 0.5 <= PendingPenalty(t) <= 1.0
  {
  }

  lemma ProductBound(a: real, b: real, c: real, d: real)
    requires 0.0 <= a <= 1.0 && 0.0 <= b <= 1.0 && 0.0 <= c && 0.0 <= d <= 1.0
    ensures 0.0 <= Times(Times(Times(a, b), c), d) <= c
  {
    var ab := Times(a, b);
    UnitProduct(a, b);
    TimesMonotone(0.0, ab, c);
    TimesMonotone(ab, 1.0, c);
    TimesUnit(c, 1.0);
    TimesUnit(c, 0.0);
    var abc := Times(ab, c);
    TimesMonotone(0.0, d, abc);
    TimesMonotone(d, 1.0, abc);
    TimesUnit(abc, d);
    TimesUnit(abc, 1.0);
    TimesUnit(abc, 0.0);
  }

  lemma UnitProduct(a: real, b: real)
    requires 0.0 <= a <= 1.0 && 0.0 <= b <= 1.0
    ensures 0.0 <= Times(a, b) <= 1.0
  {
    TimesMonotone(0.0, a, b);
    TimesMonotone(a, 1.0, b);
    TimesUnit(b, 1.0);
    TimesUnit(b, 0.0);
  }

  /** Few enough outcomes are pending, rounding included. */
  predicate FewPending(t: Tally) { t.pending * 10000000 <= (Support(t) + t.pending) * 4000005 }

  /** One-sided outcomes with enough support: confidence is what the pending outcomes leave of it. */
  lemma OneSidedConfidence(t: Tally, minSupport: nat)
    requires minSupport > 0 && Support(t) >= minSupport && (t.helpful == 0 || t.harmful == 0)
    ensures Abs(EffectSize(t)) == 1.0
    ensures Confidence(t, minSupport) == Round6(PendingPenalty(t))
    ensures Confidence(t, minSupport) >= MIN_CONFIDENCE <==> FewPending(t)
  {
    EffectBounds(t);
    PositiveFraction(Support(t), minSupport);
    TimesUnit(1.0, 1.0);
    PenaltyBounds(t);
    TimesUnit(PendingPenalty(t), 1.0);
    PenaltyIsHighIff(t);
  }

  lemma PenaltyIsHighIff(t: Tally)
    requires Support(t) > 0
    ensures Round6(PendingPenalty(t)) >= 0.6 <==> FewPending(t)
  {
    var x := PendingPenalty(t);
    assert Round6(x) >= 0.6 <==> Micros(x) >= 600000;
    assert Micros(x) >= 600000 <==> x >= 0.5999995;
    if t.pending > 0 {
      var n := Support(t) + t.pending;
      FractionCompare(t.pending, n, 0.4000005);
      assert Times(0.4000005, n as real) == 0.4000005 * n as real;
    }
  }

  /** The whole scoring comes down to three nudges. A failed or regressed evaluation suppresses;
      otherwise a rule is nudged just when enough settled outcomes all point the same way and few
      enough are pending, and then by the full amount. */
  lemma NudgeIs(t: Tally, minSupport: nat, history: bool)
    requires minSupport > 0
    ensures NudgeOf(t, minSupport, history) ==
            if history then Nudge(false, Suppress, -MAX_NUDGE)
            else if Support(t) >= minSupport && t.harmful == 0 && FewPending(t) then Nudge(true, Boost, MAX_NUDGE)
            else if Support(t) >= minSupport && t.helpful == 0 && FewPending(t) then Nudge(true, Suppress, -MAX_NUDGE)
            else Nudge(false, NoBand, 0.0)
  {
    if t.helpful > 0 && t.harmful > 0 {
      MixedIsNotEligible(t, minSupport, history);
    } else if Support(t) >= minSupport {
      OneSidedConfidence(t, minSupport);
      EffectBounds(t);
      var c := Confidence(t, minSupport);
      TimesUnit(c, 1.0);
      TimesAdds(0.0, 1.0, c);
      TimesUnit(c, 0.0);
      Round6Exact(250000);
      Round6Exact(-250000);
    }
  }

  /** Bands agree with the sign of the value, which is bounded. */
  lemma BandIsSign(t: Tally, minSupport: nat, history: bool)
    requires minSupport > 0
    ensures var n := NudgeOf(t, minSupport, history);
            -MAX_NUDGE <= n.value <= MAX_NUDGE
            && (n.band == Boost <==> n.value > 0.0) && (n.band == NoBand <==> n.value == 0.0) && (n.band == Suppress <==> n.value < 0.0)
  {
    NudgeIs(t, minSupport, history);
  }

  // ----- re-ranking the head of the rulebook -------------------------------------------------

  // A scored rule of the head, with its place before ranking.
  datatype Scored = Scored(rule: Rule, index: nat, nudge: Nudge)

  function Priority(b: Band): nat {
    match b
    case Boost => 2
    case NoBand => 1
    case Suppress => 0
  }

  /** By band, then by value, then by the place before ranking. */
  predicate RanksAbove(x: Scored, y: Scored) {
    if x.nudge.band != y.nudge.band then Priority(x.nudge.band) > Priority(y.nudge.band)
    else if x.nudge.value != y.nudge.value then x.nudge.value > y.nudge.value
    else x.index < y.index
  }

  predicate ByValue(x: Scored, y: Scored) {
    x.nudge.value > y.nudge.value || (x.nudge.value == y.nudge.value && x.index < y.index)
  }

  function RuleNudge(m: Memory, outcomes: seq<OutcomeRecord>, minSupport: nat, rule: Rule): Nudge
    requires minSupport > 0
  {
    NudgeOf(CountOf(outcomes, rule.ruleId), minSupport, RegressionHistory(m, rule))
  }

  function ScoreAll(m: Memory, outcomes: seq<OutcomeRecord>, minSupport: nat, head: seq<Rule>): (r: seq<Scored>)
    requires minSupport > 0
    ensures |r| == |head|
  {
    seq(|head|, i requires 0 <= i < |head| => Scored(head[i], i, RuleNudge(m, outcomes, minSupport, head[i])))
  }

  function RulesOf(ss: seq<Scored>): (r: seq<Rule>)
    ensures |r| == |ss| && forall i | 0 <= i < |ss| :: r[i] == ss[i].rule
  {
    if ss == [] then [] else RulesOf(ss[..|ss| - 1]) + [ss[|ss| - 1].rule]
  }

  /** How much of a rulebook is ranked: at least one rule if there is any, never more than 32. */
  function TopK(requested: nat, rules: nat): (k: nat)
    ensures rules > 0 ==> 0 < k <= rules
    ensures k <= MAX_TOP_K
  {
    Min(Max(requested, 1), Min(MAX_TOP_K, Max(rules, 1)))
  }

  function RankHead(m: Memory, outcomes: seq<OutcomeRecord>, minSupport: nat, head: seq<Rule>): seq<Rule>
    requires minSupport > 0
  {
    RulesOf(SortBy(ScoreAll(m, outcomes, minSupport, head), RanksAbove))
  }

  function Rank(m: Memory, outcomes: seq<OutcomeRecord>, minSupport: nat, requested: nat): seq<Rule>
    requires minSupport > 0
  {
    var k := Min(TopK(requested, |m.rules|), |m.rules|);
    RankHead(m, outcomes, minSupport, m.rules[..k]) + m.rules[k..]
  }

  /** The nudge of a rule in terms of what is stored: a failed or regressed evaluation of its candidate
      suppresses it, and otherwise its outcomes decide. */
  lemma RuleNudgeIs(m: Memory, outcomes: seq<OutcomeRecord>, minSupport: nat, rule: Rule)
    requires minSupport > 0
    ensures var helped, harmed := PlacesOf(outcomes, rule.ruleId, false, Some(false)), PlacesOf(outcomes, rule.ruleId, false, Some(true));
            var pending := PlacesOf(outcomes, rule.ruleId, true, None);
            var few := |pending| * 10000000 <= (|helped| + |harmed| + |pending|) * 4000005;
            var history := rule.origin.PromotedFrom?
              && exists e :: e in m.evals && e.seed.candidateId == rule.origin.candidateId && (e.regressions > 0 || !e.pass);
            RuleNudge(m, outcomes, minSupport, rule) ==
              if history then Nudge(false, Suppress, -0.25)
              else if |helped| >= minSupport && |harmed| == 0 && few then Nudge(true, Boost, 0.25)
              else if |harmed| >= minSupport && |helped| == 0 && few then Nudge(true, Suppress, -0.25)
              else Nudge(false, NoBand, 0.0)
  {
    CountsByStatus(outcomes, rule.ruleId);
    NudgeIs(CountOf(outcomes, rule.ruleId), minSupport, RegressionHistory(m, rule));
    if rule.origin.PromotedFrom? {
      if e :| e in m.evals && e.seed.candidateId == rule.origin.candidateId && (e.regressions > 0 || !e.pass) {
        var i :| 0 <= i < |m.evals| && m.evals[i] == e;
      }
    }
  }

  /** How much of a rulebook is ranked: what is asked for, but one rule at least and 32 at most. */
  lemma TopKIs(requested: nat, rules: nat)
    requires rules > 0
    ensures 1 <= requested <= rules && requested <= 32 ==> TopK(requested, rules) == requested
    ensures requested == 0 ==> TopK(requested, rules) == 1
    ensures requested > 32 && rules >= 32 ==> TopK(requested, rules) == 32
    ensures requested > rules && rules <= 32 ==> TopK(requested, rules) == rules
  {
  }

  lemma OrdersAreStrict()
    ensures StrictOrder(RanksAbove) && StrictOrder(ByValue)
  {
  }

  lemma OrdersAgree(m: Memory, outcomes: seq<OutcomeRecord>, minSupport: nat, x: Scored, y: Scored)
    requires minSupport > 0
    requires x.nudge == RuleNudge(m, outcomes, minSupport, x.rule) && y.nudge == RuleNudge(m, outcomes, minSupport, y.rule)
    ensures RanksAbove(x, y) <==> ByValue(x, y)
  {
    BandIsSign(CountOf(outcomes, x.rule.ruleId), minSupport, RegressionHistory(m, x.rule));
    BandIsSign(CountOf(outcomes, y.rule.ruleId), minSupport, RegressionHistory(m, y.rule));
  }

  /** What the sort of a scored head holds. */
  lemma SortedHead(m: Memory, outcomes: seq<OutcomeRecord>, minSupport: nat, head: seq<Rule>, other: seq<Scored>, i: nat)
    requires minSupport > 0 && i < |other| && multiset(other) == multiset(ScoreAll(m, outcomes, minSupport, head))
    ensures other[i].nudge == RuleNudge(m, outcomes, minSupport, other[i].rule)
  {
    assert other[i] in multiset(other);
    assert other[i] in ScoreAll(m, outcomes, minSupport, head);
  }

  lemma EitherRanksAbove(x: Scored, y: Scored)
    requires x.index != y.index
    ensures RanksAbove(x, y) || RanksAbove(y, x)
  {
  }

  lemma SortOrders(s: seq<Scored>)
    requires forall i | 0 <= i < |s| :: s[i].index == i
    ensures multiset(SortBy(s, RanksAbove)) == multiset(s) && OrderedBy(SortBy(s, RanksAbove), RanksAbove)
  {
    OrdersAreStrict();
    forall i, j | 0 <= i < j < |s| ensures RanksAbove(s[i], s[j]) || RanksAbove(s[j], s[i]) {
      EitherRanksAbove(s[i], s[j]);
    }
    SortByOrders(s, RanksAbove);
    SortByKeepsElements(s, RanksAbove);
  }

  lemma SortOrdersHead(m: Memory, outcomes: seq<OutcomeRecord>, minSupport: nat, head: seq<Rule>)
    requires minSupport > 0
    ensures var sorted := SortBy(ScoreAll(m, outcomes, minSupport, head), RanksAbove);
            multiset(sorted) == multiset(ScoreAll(m, outcomes, minSupport, head)) && OrderedBy(sorted, RanksAbove)
  {
    SortOrders(ScoreAll(m, outcomes, minSupport, head));
  }

  lemma ByValueIsByBand(m: Memory, outcomes: seq<OutcomeRecord>, minSupport: nat, head: seq<Rule>, other: seq<Scored>)
    requires minSupport > 0
    requires multiset(other) == multiset(ScoreAll(m, outcomes, minSupport, head)) && OrderedBy(other, ByValue)
    ensures OrderedBy(other, RanksAbove)
  {
    forall i, j | 0 <= i < j < |other| ensures RanksAbove(other[i], other[j]) {
      SortedHead(m, outcomes, minSupport, head, other, i);
      SortedHead(m, outcomes, minSupport, head, other, j);
      OrdersAgree(m, outcomes, minSupport, other[i], other[j]);
    }
  }

  /** The order by band, value and place is the order by value and place alone: any arrangement of
      the scored head by the latter is the ranking. */
  lemma RankingIsValueOrder(m: Memory, outcomes: seq<OutcomeRecord>, minSupport: nat, head: seq<Rule>, other: seq<Scored>)
    requires minSupport > 0
    requires multiset(other) == multiset(ScoreAll(m, outcomes, minSupport, head)) && OrderedBy(other, ByValue)
    ensures RankHead(m, outcomes, minSupport, head) == RulesOf(other)
  {
    OrdersAreStrict();
    SortOrdersHead(m, outcomes, minSupport, head);
    ByValueIsByBand(m, outcomes, minSupport, head, other);
    OrderedIsUnique(SortBy(ScoreAll(m, outcomes, minSupport, head), RanksAbove), other, RanksAbove);
  }

  lemma {:induction false} InsertKeepsRules(s: seq<Scored>, x: Scored)
    ensures multiset(RulesOf(InsertBy(s, x, RanksAbove))) == multiset(RulesOf(s)) + multiset{x.rule}
  {
    if s == [] || !RanksAbove(x, s[|s| - 1]) {
      assert (s + [x])[..|s|] == s;
    } else {
      var front, last := s[..|s| - 1], s[|s| - 1];
      InsertKeepsRules(front, x);
      var r := InsertBy(front, x, RanksAbove);
      assert (r + [last])[..|r|] == r;
    }
  }

  lemma {:induction false} SortKeepsRules(s: seq<Scored>)
    ensures multiset(RulesOf(SortBy(s, RanksAbove))) == multiset(RulesOf(s))
  {
    if s != [] {
      SortKeepsRules(s[..|s| - 1]);
      InsertKeepsRules(SortBy(s[..|s| - 1], RanksAbove), s[|s| - 1]);
    }
  }

  lemma RankHeadPermutes(m: Memory, outcomes: seq<OutcomeRecord>, minSupport: nat, head: seq<Rule>)
    requires minSupport > 0
    ensures multiset(RankHead(m, outcomes, minSupport, head)) == multiset(head)
    ensures |RankHead(m, outcomes, minSupport, head)| == |head|
  {
    var scored := ScoreAll(m, outcomes, minSupport, head);
    SortKeepsRules(scored);
    assert RulesOf(scored) == head;
    assert |multiset(RankHead(m, outcomes, minSupport, head))| == |multiset(head)|;
  }

  /** Ranking permutes the rules and leaves everything behind the head where it was. */
  lemma RankPermutes(m: Memory, outcomes: seq<OutcomeRecord>, minSupport: nat, requested: nat)
    requires minSupport > 0
    ensures var k := Min(TopK(requested, |m.rules|), |m.rules|);
            var ranked := Rank(m, outcomes, minSupport, requested);
            multiset(ranked) == multiset(m.rules) && |ranked| == |m.rules|
            && multiset(ranked[..k]) == multiset(m.rules[..k]) && ranked[k..] == m.rules[k..]
  {
    var k := Min(TopK(requested, |m.rules|), |m.rules|);
    RankHeadPermutes(m, outcomes, minSupport, m.rules[..k]);
    Reassembled(m.rules, RankHead(m, outcomes, minSupport, m.rules[..k]), k);
  }

  lemma Reassembled(rules: seq<Rule>, head: seq<Rule>, k: nat)
    requires k <= |rules| && multiset(head) == multiset(rules[..k]) && |head| == k
    ensures multiset(head + rules[k..]) == multiset(rules)
    ensures (head + rules[k..])[..k] == head && (head + rules[k..])[k..] == rules[k..]
  {
    assert rules == rules[..k] + rules[k..];
  }

  /** A head whose values do not increase is left alone, so ranking is stable. */
  lemma RankedStays(m: Memory, outcomes: seq<OutcomeRecord>, minSupport: nat, head: seq<Rule>)
    requires minSupport > 0
    requires forall i, j | 0 <= i < j < |head| ::
               RuleNudge(m, outcomes, minSupport, head[i]).value >= RuleNudge(m, outcomes, minSupport, head[j]).value
    ensures RankHead(m, outcomes, minSupport, head) == head
  {
    var scored := ScoreAll(m, outcomes, minSupport, head);
    ScoredByValue(m, outcomes, minSupport, head);
    RankingIsValueOrder(m, outcomes, minSupport, head, scored);
  }

  lemma ScoredByValue(m: Memory, outcomes: seq<OutcomeRecord>, minSupport: nat, head: seq<Rule>)
    requires minSupport > 0
    requires forall i, j | 0 <= i < j < |head| ::
               RuleNudge(m, outcomes, minSupport, head[i]).value >= RuleNudge(m, outcomes, minSupport, head[j]).value
    ensures var scored := ScoreAll(m, outcomes, minSupport, head); OrderedBy(scored, ByValue) && RulesOf(scored) == head
  {
    var scored := ScoreAll(m, outcomes, minSupport, head);
    forall i, j | 0 <= i < j < |scored| ensures ByValue(scored[i], scored[j]) {
      assert scored[i].nudge == RuleNudge(m, outcomes, minSupport, head[i]);
      assert scored[j].nudge == RuleNudge(m, outcomes, minSupport, head[j]);
    }
    assert RulesOf(scored) == head;
  }

  /** Every boosted rule of the head comes before every unmoved one, and that before every
      suppressed one. */
  lemma RankHeadByValue(m: Memory, outcomes: seq<OutcomeRecord>, minSupport: nat, head: seq<Rule>, i: nat, j: nat)
    requires minSupport > 0 && i < j < |head| && |RankHead(m, outcomes, minSupport, head)| == |head|
    ensures var ranked := RankHead(m, outcomes, minSupport, head);
            RuleNudge(m, outcomes, minSupport, ranked[i]).value >= RuleNudge(m, outcomes, minSupport, ranked[j]).value
  {
    var sorted := SortBy(ScoreAll(m, outcomes, minSupport, head), RanksAbove);
    SortOrdersHead(m, outcomes, minSupport, head);
    SortedHead(m, outcomes, minSupport, head, sorted, i);
    SortedHead(m, outcomes, minSupport, head, sorted, j);
    assert RanksAbove(sorted[i], sorted[j]);
    OrdersAgree(m, outcomes, minSupport, sorted[i], sorted[j]);
  }

  /** Ranking a ranked head changes nothing. */
  lemma RankAgain(m: Memory, outcomes: seq<OutcomeRecord>, minSupport: nat, head: seq<Rule>)
    requires minSupport > 0
    ensures var ranked := RankHead(m, outcomes, minSupport, head);
            RankHead(m, outcomes, minSupport, ranked) == ranked
  {
    var ranked := RankHead(m, outcomes, minSupport, head);
    RankHeadPermutes(m, outcomes, minSupport, head);
    forall i, j | 0 <= i < j < |ranked|
      ensures RuleNudge(m, outcomes, minSupport, ranked[i]).value >= RuleNudge(m, outcomes, minSupport, ranked[j]).value
    {
      RankHeadByValue(m, outcomes, minSupport, head, i, j);
    }
    RankedStays(m, outcomes, minSupport, ranked);
  }
}
