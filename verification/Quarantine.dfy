/** What an incident quarantine (or a manual suppression) leaves behind. */
module QuarantineEffect {
  import opened Lifecycle
  import opened TemporalDecay

  /** Every existing target is demoted, no targeted rule and no rule of a newly demoted candidate
      remains, and everything else is as it was, in the same order. */
  lemma QuarantineLeavesNothing(m: Memory, ruleIds: seq<Id>, candidateIds: seq<Id>, at: Time, reasons: set<string>)
    ensures var n, targets := Quarantine(m, ruleIds, candidateIds, at, reasons), Targets(m, ruleIds, candidateIds);
            var removed := (set id | id in ruleIds) + RuleIdsOf(m, Demotable(m, targets));
            && n.cands.Keys == m.cands.Keys
            && (forall id | id in m.cands && (id in candidateIds || m.cands[id].ruleId in ruleIds) ::
                  n.cands[id].status == Demoted)
            && (forall id | id in m.cands && id !in candidateIds && m.cands[id].ruleId !in ruleIds ::
                  n.cands[id] == m.cands[id])
            && (forall id | id in m.cands && m.cands[id].status == Demoted :: n.cands[id] == m.cands[id])
            && n.rules == WithoutRules(m.rules, removed)
            && (forall r | r in n.rules :: r.ruleId !in ruleIds)
            && (forall id, r | id in targets && id in m.cands && m.cands[id].status != Demoted && r in n.rules ::
                  r.ruleId != m.cands[id].ruleId)
            && n.evals == m.evals && n.ledger == m.ledger && n.audit == m.audit && n.feedback == m.feedback
  {
    WithoutBoth(m.rules, RuleIdsOf(m, Demotable(m, Targets(m, ruleIds, candidateIds))), set id | id in ruleIds);
    assert RuleIdsOf(m, Demotable(m, Targets(m, ruleIds, candidateIds))) + (set id | id in ruleIds)
        == (set id | id in ruleIds) + RuleIdsOf(m, Demotable(m, Targets(m, ruleIds, candidateIds)));
  }

  lemma {:induction false} WithoutBoth(rules: seq<Rule>, a: set<Id>, b: set<Id>)
    ensures WithoutRules(WithoutRules(rules, a), b) == WithoutRules(rules, a + b)
  {
    if rules != [] {
      WithoutBoth(rules[1..], a, b);
      var rest := WithoutRules(rules[1..], a);
      assert ([rules[0]] + rest)[1..] == rest;
    }
  }

  lemma {:induction false} WithoutAgain(rules: seq<Rule>, ids: set<Id>)
    requires forall r | r in rules :: r.ruleId !in ids
    ensures WithoutRules(rules, ids) == rules
  {
    if rules != [] {
      assert rules[0] in rules;
      WithoutAgain(rules[1..], ids);
    }
  }

  /** Repeating a quarantine, even later and for other reasons, changes nothing. */
  lemma QuarantineAgainIsNoop(m: Memory, ruleIds: seq<Id>, candidateIds: seq<Id>, at: Time, reasons: set<string>,
                              laterAt: Time, laterReasons: set<string>)
    ensures var n := Quarantine(m, ruleIds, candidateIds, at, reasons);
            Quarantine(n, ruleIds, candidateIds, laterAt, laterReasons) == n
  {
    var n := Quarantine(m, ruleIds, candidateIds, at, reasons);
    QuarantineLeavesNothing(m, ruleIds, candidateIds, at, reasons);
    var targets := Targets(n, ruleIds, candidateIds);
    forall id | id in targets && id in n.cands ensures n.cands[id].status == Demoted {
      assert n.cands[id].ruleId == m.cands[id].ruleId;
    }
    assert Demotable(n, targets) == {};
    assert RuleIdsOf(n, {}) == {};
    WithoutNone(n.rules);
    WithoutAgain(n.rules, set id | id in ruleIds);
    assert DemoteAll(n, targets, laterAt, laterReasons).cands == n.cands;
  }

  /** Demoting one target after another is demoting them together, in any order. */
  lemma DemoteAllStep(m: Memory, done: set<Id>, id: Id, at: Time, reasons: set<string>)
    ensures DemoteAll(DemoteAll(m, done, at, reasons), {id}, at, reasons) == DemoteAll(m, done + {id}, at, reasons)
  {
    var one := DemoteAll(m, done, at, reasons);
    var a, b := RuleIdsOf(m, Demotable(m, done)), RuleIdsOf(one, Demotable(one, {id}));
    assert a + b == RuleIdsOf(m, Demotable(m, done + {id})) by {
      forall x ensures x in a + b <==> x in RuleIdsOf(m, Demotable(m, done + {id})) {
      }
    }
    WithoutBoth(m.rules, a, b);
    assert DemoteAll(one, {id}, at, reasons).cands == DemoteAll(m, done + {id}, at, reasons).cands;
  }
}
