/** The memory-candidate lifecycle of one store profile: its records, the pure per-record steps,
    and what every operation does to the whole memory.  Candidates are a map by id here; the
    arrays that the program edits in place are in `ProfileState`. */
module Lifecycle {
  import opened Numbers
  import opened Timeline

  type Id = int
  type Time = int

  const CONFIDENCE_FLOOR := 0.05
  const DAILY_RETENTION := 0.99
  const DEMOTION_STREAK := 2
  const MAX_AUDIT_EVENTS := 2048
  const MAX_LEDGER_ENTRIES := 4096

  // ----- records ---------------------------------------------------------------------------

  datatype Status = Shadow | Promoted | Demoted
  datatype ReplayStatus = Unevaluated | Passed | Failed
  datatype Utility = Utility(score: real, signalId: Id)

  datatype Candidate = Candidate(
    id: Id, ruleId: Id, statement: string, scope: string, confidence: real,
    sources: set<Id>, evidence: set<Id>,
    createdAt: Time, updatedAt: Time, expiresAt: Time, status: Status,
    latestEval: Option<Id>, latestStatus: ReplayStatus, latestNet: Option<int>, streak: nat,
    promotedAt: Option<Time>, demotedAt: Option<Time>, demotionReasons: set<string>,
    decayCursor: Time, decayTicks: nat, decayDays: nat,
    adjustedBy: Option<Id>, utility: Option<Utility>)

  datatype Origin =
    | Curated(selected: Id)
    | PromotedFrom(candidateId: Id, evalId: Option<Id>, at: Time)

  datatype Rule = Rule(
    ruleId: Id, statement: string, scope: string, confidence: real,
    sources: set<Id>, evidence: set<Id>, origin: Origin, updatedAt: Time, utility: Option<Utility>)

  // Metrics, scores and thresholds are whole millionths.
  datatype Metrics = Metrics(success: int, reopen: int, latency: int, tokens: int, violations: int, hallucination: int)
  datatype Canary = Canary(success: int, errors: int, latency: int, violations: int, hallucination: int)
  datatype Evaluation = Evaluation(id: Id, seed: EvalSeed, net: int, regressions: nat, pass: bool, at: Time, metadata: string)

  datatype FeedbackRecord = FeedbackRecord(
    id: Id, ruleId: Option<Id>, candidateId: Option<Id>, harmful: bool, note: string, actor: string, at: Time)

  datatype OutcomeRecord = OutcomeRecord(
    id: Id, usedRuleIds: seq<Id>, traced: bool, provisional: bool, failure: bool, task: string, actor: string, at: Time)

  datatype Adjustment = Adjustment(
    candidateId: Id, delta: int, reason: string, actor: string, reasonCodes: set<string>, at: Time)
  datatype LedgerEntry = LedgerEntry(id: Id, digest: Adjustment, auditId: Id, at: Time)

  datatype RuleAction = RuleSkipped | RuleUnchanged | RuleUpdated
  datatype Detail =
    | Plain(text: string)
    | Weight(adjustmentId: Id, digest: Adjustment, previous: int, next: int, applied: int, ruleAction: RuleAction)
  datatype AuditEvent = AuditEvent(id: Id, seed: AuditSeed)

  function CandidateKey(c: Candidate): Key { Key(c.updatedAt, c.id) }
  function RuleKey(r: Rule): Key { Key(r.updatedAt, r.ruleId) }
  function EvalKey(e: Evaluation): Key { Key(e.at, e.id) }
  function OutcomeKey(o: OutcomeRecord): Key { Key(o.at, o.id) }
  function FeedbackKey(f: FeedbackRecord): Key { Key(f.at, f.id) }
  function LedgerKey(e: LedgerEntry): Key { Key(e.at, e.id) }
  function AuditKey(e: AuditEvent): Key { Key(e.seed.at, e.id) }

  // ----- derived ids -----------------------------------------------------------------------

  datatype CandidateSeed = CandidateSeed(statement: string, scope: string, sources: set<Id>, evidence: set<Id>)
  datatype RuleSeed = RuleSeed(candidateId: Id, statement: string, scope: string)
  datatype PackSeed = PackSeed(candidateId: Id, gate: int, at: Time)
  datatype EvalSeed = EvalSeed(
    candidateId: Id, packId: Id, metrics: Metrics, canary: Canary, gate: int, replayLimit: int, canaryLimit: int)
  datatype AuditSeed = AuditSeed(
    operation: string, entity: Id, outcome: string, reasons: set<string>, detail: Detail, at: Time)

  /** `makeId` over `hash`, one function for each kind of id.  Theorems about derived ids take
      the hash to be free of collisions. */
  datatype IdScheme = IdScheme(
    candidate: CandidateSeed -> Id, rule: RuleSeed -> Id, pack: PackSeed -> Id,
    eval: EvalSeed -> Id, adjustment: Adjustment -> Id, audit: AuditSeed -> Id)
  {
    ghost predicate Injective() {
      && (forall a, b :: candidate(a) == candidate(b) ==> a == b)
      && (forall a, b :: rule(a) == rule(b) ==> a == b)
      && (forall a, b :: eval(a) == eval(b) ==> a == b)
      && (forall a, b :: audit(a) == audit(b) ==> a == b)
    }
  }

  // ----- memory ----------------------------------------------------------------------------

  datatype Memory = Memory(
    cands: map<Id, Candidate>, rules: seq<Rule>, evals: seq<Evaluation>,
    feedback: map<Id, FeedbackRecord>, outcomes: map<Id, OutcomeRecord>, ledger: seq<LedgerEntry>, audit: seq<AuditEvent>)

  const EMPTY := Memory(map[], [], [], map[], map[], [], [])

  datatype Error =
    | CandidateNotFound | MissingStatement | MissingEvidence
    | GateNotPassed | EvidenceNotFresh | AdjustmentCollision | TooManyReasonCodes | AuditRefused
  datatype Verdict = Applied | Noop | Rejected(error: Error)
  datatype Reply = Reply(memory: Memory, verdict: Verdict)

  ghost predicate HasRule(rules: seq<Rule>, id: Id) {
    exists r :: r in rules && r.ruleId == id
  }

  /** The rules whose id is not in `ids`, in their order. */
  function WithoutRules(rules: seq<Rule>, ids: set<Id>): (r: seq<Rule>)
    ensures forall x :: x in r <==> x in rules && x.ruleId !in ids
  {
    if rules == [] then []
    else if rules[0].ruleId in ids then WithoutRules(rules[1..], ids)
    else [rules[0]] + WithoutRules(rules[1..], ids)
  }

  // ----- shadow_write ----------------------------------------------------------------------

  datatype WriteRequest = WriteRequest(
    statement: string, scope: string, confidence: real, sources: set<Id>, evidence: set<Id>,
    createdAt: Time, expiresAt: Time, candidateId: Option<Id>, ruleId: Option<Id>)

  function GetOr<T>(o: Option<T>, default: T): T {
    if o.Some? then o.value else default
  }

  /** Why `normalizeShadowCandidate` throws, if it does. */
  function WriteError(w: WriteRequest): Option<Error> {
    if w.statement == "" then Some(MissingStatement)
    else if w.sources == {} || w.evidence == {} then Some(MissingEvidence)
    else None
  }

  function NormalizeShadowCandidate(ids: IdScheme, w: WriteRequest): Candidate {
    var id := GetOr(w.candidateId, ids.candidate(CandidateSeed(w.statement, w.scope, w.sources, w.evidence)));
    var ruleId := GetOr(w.ruleId, ids.rule(RuleSeed(id, w.statement, w.scope)));
    Candidate(id, ruleId, w.statement, w.scope, Clamp01(w.confidence), w.sources, w.evidence,
              w.createdAt, w.createdAt, w.expiresAt, Shadow,
              None, Unevaluated, None, 0, None, None, {}, w.createdAt, 0, 0, None, None)
  }

  function Rewritten(old_: Candidate, incoming: Candidate, at: Time): Candidate {
    old_.(ruleId := incoming.ruleId, statement := incoming.statement, scope := incoming.scope,
          confidence := incoming.confidence, sources := old_.sources + incoming.sources,
          evidence := old_.evidence + incoming.evidence, expiresAt := incoming.expiresAt,
          updatedAt := at, status := if old_.status == Promoted then Promoted else Shadow)
  }

  function WriteOne(m: Memory, incoming: Candidate, at: Time): Memory {
    m.(cands := m.cands[incoming.id :=
                  if incoming.id in m.cands then Rewritten(m.cands[incoming.id], incoming, at) else incoming])
  }

  /** The candidates are written in turn; one that is refused ends the call and leaves the
      earlier ones in place. */
  function ShadowWrite(ids: IdScheme, m: Memory, batch: seq<WriteRequest>, at: Time): Reply
    decreases batch
  {
    if batch == [] then Reply(m, Applied)
    else if WriteError(batch[0]).Some? then Reply(m, Rejected(WriteError(batch[0]).value))
    else ShadowWrite(ids, WriteOne(m, NormalizeShadowCandidate(ids, batch[0]), at), batch[1..], at)
  }

  // ----- demotion --------------------------------------------------------------------------

  function DemotedCandidate(c: Candidate, at: Time, reasons: set<string>): Candidate {
    c.(status := Demoted, demotedAt := Some(at), updatedAt := at, demotionReasons := reasons)
  }

  /** The targets that exist and are not demoted yet. */
  function Demotable(m: Memory, targets: set<Id>): set<Id> {
    set id | id in targets && id in m.cands && m.cands[id].status != Demoted
  }

  function RuleIdsOf(m: Memory, hit: set<Id>): set<Id> {
    set id | id in hit && id in m.cands :: m.cands[id].ruleId
  }

  /** Demote all of `targets` at once and drop the rules of the newly demoted. */
  function DemoteAll(m: Memory, targets: set<Id>, at: Time, reasons: set<string>): Memory {
    var hit := Demotable(m, targets);
    m.(cands := map id | id in m.cands ::
                  if id in hit then DemotedCandidate(m.cands[id], at, reasons) else m.cands[id],
       rules := WithoutRules(m.rules, RuleIdsOf(m, hit)))
  }

  /** The candidates named by id or by rule id, including named ids that do not exist. */
  function Targets(m: Memory, ruleIds: seq<Id>, candidateIds: seq<Id>): set<Id> {
    (set id | id in candidateIds) + (set id | id in m.cands && m.cands[id].ruleId in ruleIds)
  }

  predicate BelowThreshold(c: Candidate, threshold: int) {
    GetOr(c.latestNet, 0) < threshold
  }

  predicate ShouldDemote(c: Candidate, threshold: int, force: bool) {
    force || c.latestStatus == Failed || BelowThreshold(c, threshold)
  }

  function DemoteReasons(c: Candidate, threshold: int, force: bool, given: set<string>): set<string> {
    if given != {} then given
    else
      (if c.latestStatus == Failed then {"replay_eval_fail"} else {})
      + (if BelowThreshold(c, threshold) then {"net_value_below_threshold"} else {})
      + (if force then {"manual_override"} else {})
  }

  function Demote(m: Memory, candidateId: Id, at: Time, threshold: int, force: bool, reasons: set<string>): Reply {
    if candidateId !in m.cands then Reply(m, Rejected(CandidateNotFound))
    else
      var c := m.cands[candidateId];
      if !ShouldDemote(c, threshold, force) then Reply(m, Noop)
      else
        Reply(DemoteAll(m, {candidateId}, at, DemoteReasons(c, threshold, force, reasons)),
              if c.status == Demoted then Noop else Applied)
  }

  // ----- replay_eval -----------------------------------------------------------------------

  datatype EvalRequest = EvalRequest(
    candidateId: Id, at: Time, metrics: Metrics, canary: Canary, gate: int, replayLimit: int, canaryLimit: int,
    packId: Option<Id>, evalId: Option<Id>, metadata: string)

  function NetValue(m: Metrics, c: Canary): int {
    100 * m.success - 80 * m.reopen + Hundredth(-(5 * m.latency)) + Tenth(-m.tokens)
    - 200 * m.violations - 120 * m.hallucination
    + 60 * c.success - 90 * c.errors + Hundredth(-(4 * c.latency)) - 220 * c.violations - 140 * c.hallucination
  }

  function Above(delta: int, limit: int): nat { if delta > limit then 1 else 0 }

  function Regressions(m: Metrics, c: Canary, replayLimit: int, canaryLimit: int): nat {
    Above(m.violations, replayLimit) + Above(m.hallucination, replayLimit)
    + Above(c.violations, canaryLimit) + Above(c.hallucination, canaryLimit) + Above(c.errors, canaryLimit)
  }

  function Evaluate(ids: IdScheme, q: EvalRequest): Evaluation {
    var replayLimit, canaryLimit := Max(q.replayLimit, 0), Max(q.canaryLimit, 0);
    var net := NetValue(q.metrics, q.canary);
    var regressions := Regressions(q.metrics, q.canary, replayLimit, canaryLimit);
    var pack := GetOr(q.packId, ids.pack(PackSeed(q.candidateId, q.gate, q.at)));
    var seed := EvalSeed(q.candidateId, pack, q.metrics, q.canary, q.gate, replayLimit, canaryLimit);
    Evaluation(GetOr(q.evalId, ids.eval(seed)), seed, net, regressions, regressions == 0 && net >= q.gate, q.at, q.metadata)
  }

  /** How many of the candidate's latest evaluations, counted back from the last, are negative. */
  function Trailing(evals: seq<Evaluation>, candidateId: Id): nat {
    if evals == [] then 0
    else
      var last, front := evals[|evals| - 1], evals[..|evals| - 1];
      if last.seed.candidateId != candidateId then Trailing(front, candidateId)
      else if last.net < 0 then 1 + Trailing(front, candidateId)
      else 0
  }

  datatype EvalAction = Created | Updated | Unchanged

  function EvalActionOf(evals: seq<Evaluation>, e: Evaluation): EvalAction {
    var k := Find(evals, e.id, EvalKey);
    if k == -1 then Created else if evals[k] == e then Unchanged else Updated
  }

  function StreakAfter(c: Candidate, action: EvalAction, e: Evaluation, evals: seq<Evaluation>): nat {
    match action
    case Created => if e.net < 0 then c.streak + 1 else 0
    case Updated => Trailing(evals, c.id)
    case Unchanged => c.streak
  }

  function Evaluated(c: Candidate, e: Evaluation, streak: nat): Candidate {
    c.(latestEval := Some(e.id), latestStatus := if e.pass then Passed else Failed,
       latestNet := Some(e.net), streak := streak, updatedAt := e.at)
  }

  /** The memory after the evaluation is stored, before any automatic demotion. */
  function Record(m: Memory, e: Evaluation): Memory
    requires e.seed.candidateId in m.cands
  {
    var c := m.cands[e.seed.candidateId];
    var evals := Sort(Put(m.evals, e, EvalKey), EvalKey);
    var next := Evaluated(c, e, StreakAfter(c, EvalActionOf(m.evals, e), e, evals));
    m.(cands := m.cands[e.seed.candidateId := next], evals := evals)
  }

  function ReplayEval(ids: IdScheme, m: Memory, q: EvalRequest): Reply {
    if q.candidateId !in m.cands then Reply(m, Rejected(CandidateNotFound))
    else
      var e := Evaluate(ids, q);
      var recorded := Record(m, e);
      if EvalActionOf(m.evals, e) == Unchanged then Reply(recorded, Noop)
      else if recorded.cands[q.candidateId].streak < DEMOTION_STREAK then Reply(recorded, Applied)
      else Reply(DemoteAll(recorded, {q.candidateId}, q.at, {"sustained_negative_net_value"}), Applied)
  }

  // ----- promote ---------------------------------------------------------------------------

  /** The last evaluation of a candidate. */
  function LastOf(evals: seq<Evaluation>, candidateId: Id): Option<Evaluation> {
    if evals == [] then None
    else if evals[|evals| - 1].seed.candidateId == candidateId then Some(evals[|evals| - 1])
    else LastOf(evals[..|evals| - 1], candidateId)
  }

  /** The evaluation a promotion is decided on: the one the candidate names, else its last. */
  function GateEvaluation(evals: seq<Evaluation>, c: Candidate): Option<Evaluation> {
    var k := if c.latestEval.Some? then Find(evals, c.latestEval.value, EvalKey) else -1;
    if k != -1 then Some(evals[k]) else LastOf(evals, c.id)
  }

  predicate EvidenceFresh(c: Candidate, at: Time, window: int) {
    c.evidence != {} && at <= c.expiresAt && AgeDays(at, c.updatedAt) <= Min(Max(window, 1), 3650)
  }

  function PromotedCandidate(c: Candidate, e: Evaluation, at: Time): Candidate {
    c.(status := Promoted, promotedAt := Some(GetOr(c.promotedAt, at)), demotedAt := None,
       latestEval := Some(e.id), latestStatus := Passed, latestNet := Some(e.net), updatedAt := at)
  }

  function PromotedRule(c: Candidate, e: Evaluation, at: Time): Rule {
    Rule(c.ruleId, c.statement, c.scope, Round6(Clamp01(c.confidence + e.net as real / 200000000.0)),
         c.sources, c.evidence, PromotedFrom(c.id, Some(e.id), GetOr(c.promotedAt, at)), at, None)
  }

  function Promote(m: Memory, candidateId: Id, at: Time, window: int): Reply {
    if candidateId !in m.cands then Reply(m, Rejected(CandidateNotFound))
    else
      var c := m.cands[candidateId];
      var gate := GateEvaluation(m.evals, c);
      if gate.None? || !gate.value.pass || gate.value.regressions > 0 then Reply(m, Rejected(GateNotPassed))
      else if !EvidenceFresh(c, at, window) then Reply(m, Rejected(EvidenceNotFresh))
      else
        Reply(m.(cands := m.cands[candidateId := PromotedCandidate(c, gate.value, at)],
                 rules := Put(m.rules, PromotedRule(c, gate.value, at), RuleKey)), Applied)
  }

  // ----- addweight -------------------------------------------------------------------------

  function Reweighted(c: Candidate, adjustmentId: Id, p: Adjustment): Candidate {
    c.(confidence := Round6(Clamp01(Clamp01(c.confidence) + p.delta as real / 1000000.0)),
       updatedAt := p.at, adjustedBy := Some(adjustmentId))
  }

  function ReweightRule(rules: seq<Rule>, ruleId: Id, confidence: real, at: Time): seq<Rule> {
    var k := Find(rules, ruleId, RuleKey);
    if k == -1 then rules else rules[k := rules[k].(confidence := confidence, updatedAt := at)]
  }

  /** Insert into a log that is kept sorted and cut to its last `limit` records; a record whose
      id is present is not inserted again. */
  function Append<T(!new)>(log: seq<T>, x: T, key: T -> Key, limit: nat): seq<T> {
    Last(Sort(if Find(log, key(x).id, key) == -1 then log + [x] else log, key), limit)
  }

  predicate Adjusts(e: AuditEvent, adjustmentId: Id) {
    e.seed.operation == "addweight" && e.seed.detail.Weight? && e.seed.detail.adjustmentId == adjustmentId
  }

  function FindAdjustmentEvent(audit: seq<AuditEvent>, adjustmentId: Id): (r: Option<AuditEvent>)
    ensures r.Some? ==> r.value in audit && Adjusts(r.value, adjustmentId)
    ensures r.None? ==> forall e | e in audit :: !Adjusts(e, adjustmentId)
  {
    if audit == [] then None
    else if Adjusts(audit[0], adjustmentId) then Some(audit[0])
    else FindAdjustmentEvent(audit[1..], adjustmentId)
  }

  /** An adjustment with the reason codes that are recorded with it, its own and two more. */
  function Normalized(request: Adjustment): Adjustment {
    request.(reasonCodes := request.reasonCodes
      + {if request.delta >= 0 then "human_weight_increase" else "human_weight_decrease", "addweight_manual"})
  }

  function AdjustmentId(ids: IdScheme, givenId: Option<Id>, request: Adjustment): Id {
    GetOr(givenId, ids.adjustment(Normalized(request)))
  }

  function RuleActionOf(rules: seq<Rule>, ruleId: Id, confidence: real, at: Time): RuleAction {
    var k := Find(rules, ruleId, RuleKey);
    if k == -1 then RuleSkipped
    else if rules[k] == rules[k].(confidence := confidence, updatedAt := at) then RuleUnchanged
    else RuleUpdated
  }

  /** The audit event of an adjustment, from the memory before it. */
  function WeightEvent(ids: IdScheme, m: Memory, adjustmentId: Id, p: Adjustment): AuditEvent
    requires p.candidateId in m.cands
  {
    var c := m.cands[p.candidateId];
    var previous, next := Clamp01(c.confidence), Reweighted(c, adjustmentId, p).confidence;
    var detail := Weight(adjustmentId, p, Micros(previous), Micros(next), Micros(next - previous),
                         RuleActionOf(m.rules, c.ruleId, next, p.at));
    var seed := AuditSeed("addweight", p.candidateId, "recorded", p.reasonCodes, detail, p.at);
    AuditEvent(ids.audit(seed), seed)
  }

  /** The candidate and its rule after an adjustment. */
  function Weighed(m: Memory, adjustmentId: Id, p: Adjustment): Memory
    requires p.candidateId in m.cands
  {
    var c := m.cands[p.candidateId];
    var next := Reweighted(c, adjustmentId, p);
    m.(cands := m.cands[p.candidateId := next], rules := ReweightRule(m.rules, c.ruleId, next.confidence, p.at))
  }

  /** The memory after an adjustment that was not seen before. */
  function Adjusted(ids: IdScheme, m: Memory, adjustmentId: Id, p: Adjustment): Memory
    requires p.candidateId in m.cands
  {
    var event := WeightEvent(ids, m, adjustmentId, p);
    Weighed(m, adjustmentId, p).(
      audit := Append(m.audit, event, AuditKey, MAX_AUDIT_EVENTS),
      ledger := Enter(m.ledger, LedgerEntry(adjustmentId, p, event.id, p.at)))
  }

  function Enter(ledger: seq<LedgerEntry>, entry: LedgerEntry): seq<LedgerEntry> {
    Append(ledger, entry, LedgerKey, MAX_LEDGER_ENTRIES)
  }

  /** Candidate and rule are written before the audit event, which is refused when it carries more
      reason codes than fit; the call then ends with neither log knowing of it. */
  function AddWeight(ids: IdScheme, m: Memory, givenId: Option<Id>, request: Adjustment): Reply {
    if |request.reasonCodes| > MAX_LIST_ITEMS then Reply(m, Rejected(TooManyReasonCodes))
    else
      var p, adjustmentId := Normalized(request), AdjustmentId(ids, givenId, request);
      var k := Find(m.ledger, adjustmentId, LedgerKey);
      if k != -1 then
        Reply(m, if m.ledger[k].digest != p then Rejected(AdjustmentCollision) else Noop)
      else if p.candidateId !in m.cands then Reply(m, Rejected(CandidateNotFound))
      else
        var prior := FindAdjustmentEvent(m.audit, adjustmentId);
        if prior.None? then
          if |p.reasonCodes| > MAX_LIST_ITEMS then Reply(Weighed(m, adjustmentId, p), Rejected(AuditRefused))
          else Reply(Adjusted(ids, m, adjustmentId, p), Applied)
        else if prior.value.seed.detail.digest != p then Reply(m, Rejected(AdjustmentCollision))
        else Reply(m.(ledger := Enter(m.ledger, LedgerEntry(adjustmentId, p, prior.value.id, p.at))), Noop)
  }

  /** The verdicts of the calls that wrote the candidate. */
  predicate Wrote(v: Verdict) { v == Applied || v == Rejected(AuditRefused) }

  lemma AdjustedRecords(ids: IdScheme, m: Memory, adjustmentId: Id, p: Adjustment)
    requires p.candidateId in m.cands
    ensures var n, w := Adjusted(ids, m, adjustmentId, p), Weighed(m, adjustmentId, p);
            n.cands == w.cands && n.rules == w.rules && n.evals == m.evals && n.feedback == m.feedback && n.outcomes == m.outcomes
  {
  }

  lemma AddWeightResult(ids: IdScheme, m: Memory, givenId: Option<Id>, request: Adjustment)
    ensures var n, p := AddWeight(ids, m, givenId, request), Normalized(request);
            var id := AdjustmentId(ids, givenId, request);
            && (Wrote(n.verdict) ==> p.candidateId in m.cands)
            && (n.verdict == Applied ==> n.memory == Adjusted(ids, m, id, p))
            && (n.verdict == Rejected(AuditRefused) ==> n.memory == Weighed(m, id, p))
            && (!Wrote(n.verdict) ==> n.memory == m.(ledger := n.memory.ledger))
  {
  }

  /** An adjustment is either written or touches the logs at most. */
  lemma AddWeightCases(ids: IdScheme, m: Memory, givenId: Option<Id>, request: Adjustment)
    ensures var n, p := AddWeight(ids, m, givenId, request), Normalized(request);
            var id := AdjustmentId(ids, givenId, request);
            && n.memory.evals == m.evals && n.memory.feedback == m.feedback && n.memory.outcomes == m.outcomes
            && if Wrote(n.verdict) then
                 p.candidateId in m.cands
                 && n.memory.cands == Weighed(m, id, p).cands && n.memory.rules == Weighed(m, id, p).rules
               else n.memory.cands == m.cands && n.memory.rules == m.rules
  {
    AddWeightResult(ids, m, givenId, request);
    if AddWeight(ids, m, givenId, request).verdict == Applied {
      AdjustedRecords(ids, m, AdjustmentId(ids, givenId, request), Normalized(request));
    }
  }

  // ----- quarantine and manual override ----------------------------------------------------

  function Quarantine(m: Memory, ruleIds: seq<Id>, candidateIds: seq<Id>, at: Time, reasons: set<string>): Memory {
    var demoted := DemoteAll(m, Targets(m, ruleIds, candidateIds), at, reasons);
    demoted.(rules := WithoutRules(demoted.rules, set id | id in ruleIds))
  }

  function OverriddenCandidate(c: Candidate, at: Time): Candidate {
    if c.status == Promoted then c
    else c.(status := Promoted, promotedAt := Some(GetOr(c.promotedAt, at)), demotedAt := None,
            demotionReasons := {}, updatedAt := at)
  }

  function OverrideRule(c: Candidate, at: Time): Rule {
    Rule(c.ruleId, c.statement, c.scope, Round6(Clamp01(c.confidence)), c.sources, c.evidence,
         PromotedFrom(c.id, c.latestEval, GetOr(c.promotedAt, at)), at, None)
  }

  function OverrideOne(m: Memory, id: Id, at: Time): Memory {
    if id !in m.cands then m
    else
      var c := OverriddenCandidate(m.cands[id], at);
      m.(cands := m.cands[id := c], rules := Put(m.rules, OverrideRule(c, at), RuleKey))
  }

  function OverrideEach(m: Memory, ids: seq<Id>, at: Time): Memory {
    if ids == [] then m
    else OverrideOne(OverrideEach(m, ids[..|ids| - 1], at), ids[|ids| - 1], at)
  }

  /** A set of ids as `asSortedUniqueStrings` lists it. */
  ghost predicate Ascending(s: seq<Id>) {
    forall i, j | 0 <= i < j < |s| :: s[i] < s[j]
  }

  lemma AscendingCons(x: Id, s: seq<Id>)
    requires Ascending(s) && forall y | y in s :: x < y
    ensures Ascending([x] + s)
  {
    assert forall i | 0 <= i < |s| :: s[i] in s;
  }

  function InsertId(s: seq<Id>, x: Id): (r: seq<Id>)
    ensures forall y :: y in r <==> y == x || y in s
    ensures Ascending(s) ==> Ascending(r)
  {
    if s == [] then [x]
    else if x < s[0] then [x] + s
    else if x == s[0] then s
    else
      var t := InsertId(s[1..], x);
      assert Ascending(s) ==> Ascending([s[0]] + t) by { if Ascending(s) { AscendingCons(s[0], t); } }
      [s[0]] + t
  }

  function SortedUnique(s: seq<Id>): (r: seq<Id>)
    ensures Ascending(r) && forall x :: x in r <==> x in s
  {
    if s == [] then []
    else
      assert s == s[..|s| - 1] + [s[|s| - 1]];
      InsertId(SortedUnique(s[..|s| - 1]), s[|s| - 1])
  }

  lemma {:induction false} AscendingDetermined(a: seq<Id>, b: seq<Id>)
    requires Ascending(a) && Ascending(b) && forall x :: x in a <==> x in b
    ensures a == b
  {
    assert (a != [] ==> a[0] in a) && (b != [] ==> b[0] in b);
    if a != [] && b != [] {
      assert a[0] <= b[0] by { var i :| 0 <= i < |a| && a[i] == b[0]; }
      assert b[0] <= a[0] by { var i :| 0 <= i < |b| && b[i] == a[0]; }
      assert a == [a[0]] + a[1..] && b == [b[0]] + b[1..];
      forall x ensures x in a[1..] <==> x in b[1..] {
        assert a[0] !in a[1..] && b[0] !in b[1..];
        assert x in a <==> x == a[0] || x in a[1..];
        assert x in b <==> x == b[0] || x in b[1..];
      }
      AscendingDetermined(a[1..], b[1..]);
    }
  }

  /** Every finite set has such a list. */
  ghost function Listed(ids: set<Id>): (s: seq<Id>)
    ensures Ascending(s) && forall x :: x in s <==> x in ids
  {
    if ids == {} then []
    else
      assert (forall x :: x !in ids) ==> ids == {};
      var x :| x in ids;
      assert ids == (ids - {x}) + {x};
      InsertId(Listed(ids - {x}), x)
  }

  ghost function Override(m: Memory, ruleIds: seq<Id>, candidateIds: seq<Id>, at: Time): Memory {
    var done := OverrideEach(m, Listed(Targets(m, ruleIds, candidateIds)), at);
    done.(rules := Sort(done.rules, RuleKey))
  }

  // ----- feedback and outcomes -------------------------------------------------------------

  function Signal(u: Option<Utility>, signalId: Id, delta: real): Utility {
    var previous := if u.Some? then Clamp01(u.value.score) else 0.5;
    Utility(Round6(Clamp01(previous + delta)), signalId)
  }

  predicate Heard(u: Option<Utility>, signalId: Id) {
    u.Some? && u.value.signalId == signalId
  }

  function SignalCandidate(c: Candidate, signalId: Id, delta: real, at: Time): Candidate {
    if Heard(c.utility, signalId) then c
    else c.(utility := Some(Signal(c.utility, signalId, delta)), updatedAt := at)
  }

  function SignalRule(r: Rule, ruleIds: seq<Id>, signalId: Id, delta: real): Rule {
    if r.ruleId !in ruleIds || Heard(r.utility, signalId) then r
    else r.(utility := Some(Signal(r.utility, signalId, delta)))
  }

  function SignalTarget(c: Candidate, ruleIds: seq<Id>, candidateIds: seq<Id>, signalId: Id, delta: real, at: Time): (r: Candidate)
    ensures r.id == c.id && r.ruleId == c.ruleId && r.status == c.status
  {
    if c.ruleId in ruleIds || c.id in candidateIds then SignalCandidate(c, signalId, delta, at) else c
  }

  function ApplyUtility(m: Memory, ruleIds: seq<Id>, candidateIds: seq<Id>, signalId: Id, delta: real, at: Time): Memory {
    m.(cands := map id | id in m.cands :: SignalTarget(m.cands[id], ruleIds, candidateIds, signalId, delta, at),
       rules := seq(|m.rules|, i requires 0 <= i < |m.rules| => SignalRule(m.rules[i], ruleIds, signalId, delta)))
  }

  function AsList<T>(o: Option<T>): seq<T> {
    if o.Some? then [o.value] else []
  }

  function Feedback(m: Memory, f: FeedbackRecord): Reply {
    if f.id in m.feedback && m.feedback[f.id] == f then Reply(m, Noop)
    else
      var stored := m.(feedback := m.feedback[f.id := f]);
      var ruleIds, candidateIds := AsList(f.ruleId), AsList(f.candidateId);
      var signalled := ApplyUtility(stored, ruleIds, candidateIds, f.id, if f.harmful then -0.18 else 0.12, f.at);
      if !f.harmful then Reply(signalled, Applied)
      else Reply(DemoteAll(signalled, Targets(signalled, ruleIds, candidateIds), f.at, {"explicit_harmful_feedback"}), Applied)
  }

  /** An outcome is recorded under its id and moves the utility of the rules it used. */
  function Outcome(m: Memory, o: OutcomeRecord): Reply {
    if o.id in m.outcomes && m.outcomes[o.id] == o then Reply(m, Noop)
    else
      var stored := m.(outcomes := m.outcomes[o.id := o]);
      Reply(ApplyUtility(stored, o.usedRuleIds, [], o.id, if o.failure then -0.2 else 0.08, o.at), Applied)
  }

  // ----- curation --------------------------------------------------------------------------

  datatype Winner = Winner(
    candidateId: Id, ruleId: Id, statement: string, scope: string, confidence: real, sources: set<Id>, evidence: set<Id>)

  function CuratedRule(w: Winner, at: Time): Rule {
    Rule(w.ruleId, w.statement, w.scope, Round6(Clamp01(w.confidence)), w.sources, w.evidence, Curated(w.candidateId), at, None)
  }

  function CurateEach(rules: seq<Rule>, winners: seq<Winner>, at: Time): seq<Rule> {
    if winners == [] then rules
    else
      var before, w := CurateEach(rules, winners[..|winners| - 1], at), winners[|winners| - 1];
      if w.statement == "" then before else Put(before, CuratedRule(w, at), RuleKey)
  }

  function Curate(m: Memory, winners: seq<Winner>, at: Time): Memory {
    m.(rules := Sort(CurateEach(m.rules, winners, at), RuleKey))
  }

  // ----- temporal maintenance --------------------------------------------------------------

  function Retained(days: nat): (r: real)
    ensures 0.0 < r <= 1.0
    ensures days > 0 ==> r <= DAILY_RETENTION
  {
    if days == 0 then 1.0 else Times(DAILY_RETENTION, Retained(days - 1))
  }

  predicate Expires(c: Candidate, at: Time) {
    c.status == Shadow && c.expiresAt < at
  }

  /** What one maintenance tick does to one candidate. */
  function TickStep(c: Candidate, at: Time): Candidate {
    if c.status != Shadow then c
    else if Expires(c, at) then DemotedCandidate(c, at, {"candidate_expired"})
    else
      var days := AgeDays(at, c.decayCursor);
      if days == 0 then c
      else
        c.(confidence := Round6(MaxReal(CONFIDENCE_FLOOR, Times(Clamp01(c.confidence), Retained(days)))),
           decayCursor := at, decayTicks := c.decayTicks + 1, decayDays := c.decayDays + days)
  }

  function Expiring(m: Memory, at: Time): set<Id> {
    set id | id in m.cands && Expires(m.cands[id], at)
  }

  function Tick(m: Memory, at: Time): Memory {
    m.(cands := map id | id in m.cands :: TickStep(m.cands[id], at),
       rules := WithoutRules(m.rules, RuleIdsOf(m, Expiring(m, at))))
  }

  // ----- runs ------------------------------------------------------------------------------

  datatype Op =
    | OpShadowWrite(batch: seq<WriteRequest>, at: Time)
    | OpReplayEval(request: EvalRequest)
    | OpPromote(candidateId: Id, at: Time, window: int)
    | OpDemote(candidateId: Id, at: Time, threshold: int, force: bool, reasons: set<string>)
    | OpAddWeight(adjustmentId: Option<Id>, payload: Adjustment)
    | OpQuarantine(ruleIds: seq<Id>, candidateIds: seq<Id>, at: Time, reasons: set<string>)
    | OpOverride(ruleIds: seq<Id>, candidateIds: seq<Id>, at: Time)
    | OpFeedback(record: FeedbackRecord)
    | OpOutcome(outcome: OutcomeRecord)
    | OpCurate(winners: seq<Winner>, at: Time)
    | OpTick(at: Time)
    | OpAudit(operation: string, entity: Id, result: string, reasons: set<string>, text: string, at: Time)

  function PlainEvent(ids: IdScheme, op: Op): AuditEvent
    requires op.OpAudit?
  {
    var seed := AuditSeed(op.operation, op.entity, op.result, op.reasons, Plain(op.text), op.at);
    AuditEvent(ids.audit(seed), seed)
  }

  ghost function Step(ids: IdScheme, m: Memory, op: Op): Reply {
    match op
    case OpShadowWrite(batch, at) => ShadowWrite(ids, m, batch, at)
    case OpReplayEval(q) => ReplayEval(ids, m, q)
    case OpPromote(id, at, window) => Promote(m, id, at, window)
    case OpDemote(id, at, threshold, force, reasons) => Demote(m, id, at, threshold, force, reasons)
    case OpAddWeight(adjustmentId, p) => AddWeight(ids, m, adjustmentId, p)
    case OpQuarantine(rs, cs, at, reasons) => Reply(Quarantine(m, rs, cs, at, reasons), Applied)
    case OpOverride(rs, cs, at) => Reply(Override(m, rs, cs, at), Applied)
    case OpFeedback(f) => Feedback(m, f)
    case OpOutcome(o) => Outcome(m, o)
    case OpCurate(winners, at) => Reply(Curate(m, winners, at), Applied)
    case OpTick(at) => Reply(Tick(m, at), Applied)
    case OpAudit(_, _, _, reasons, _, _) =>
      if |reasons| > MAX_LIST_ITEMS then Reply(m, Rejected(TooManyReasonCodes))
      else Reply(m.(audit := Append(m.audit, PlainEvent(ids, op), AuditKey, MAX_AUDIT_EVENTS)), Applied)
  }

  /** The memory of a new profile after a run of operations. */
  ghost function Run(ids: IdScheme, ops: seq<Op>): Memory {
    if ops == [] then EMPTY
    else Step(ids, Run(ids, ops[..|ops| - 1]), ops[|ops| - 1]).memory
  }

  lemma WriteOnly(ids: IdScheme, m: Memory, w: WriteRequest, at: Time)
    requires WriteError(w).None?
    ensures ShadowWrite(ids, m, [w], at) == Reply(WriteOne(m, NormalizeShadowCandidate(ids, w), at), Applied)
  {
    assert [w][1..] == [];
    assert ShadowWrite(ids, WriteOne(m, NormalizeShadowCandidate(ids, w), at), [], at).verdict == Applied;
  }

  /** A run of one write. */
  lemma WriteFirst(ids: IdScheme, w: WriteRequest, at: Time)
    requires WriteError(w).None?
    ensures var m, c := Run(ids, [OpShadowWrite([w], at)]), NormalizeShadowCandidate(ids, w);
            m == EMPTY.(cands := map[c.id := c])
  {
    assert [OpShadowWrite([w], at)][..0] == [];
    WriteOnly(ids, EMPTY, w, at);
  }
}
