/** The state object of one store profile, with the operations as the program runs them: arrays
    found by index, overwritten, spliced and sorted again.  Each method is proved to do to the
    memory what `Lifecycle` says, and to the schedule what `ReviewSchedule` says. */
module ProfileStore {
  import opened Numbers
  import opened Timeline
  import opened Lifecycle
  import opened RuleLinks
  import opened TemporalDecay
  import opened QuarantineEffect
  import opened ReviewSchedule

  lemma ReplaceInMap(s: seq<Candidate>, i: nat, x: Candidate)
    requires i < |s| && UniqueIds(s, CandidateKey) && s[i].id == x.id
    ensures UniqueIds(s[i := x], CandidateKey)
    ensures ById(s[i := x], CandidateKey) == ById(s, CandidateKey)[x.id := x]
  {
    assert Find(s, x.id, CandidateKey) == i;
    PutInMap(s, x, CandidateKey);
  }

  /** Overwriting in place and sorting again updates the map. */
  lemma ReplaceAndSort(s: seq<Candidate>, i: nat, x: Candidate)
    requires i < |s| && UniqueIds(s, CandidateKey) && s[i].id == x.id
    ensures UniqueIds(Sort(s[i := x], CandidateKey), CandidateKey) && Ordered(Sort(s[i := x], CandidateKey), CandidateKey)
    ensures ById(Sort(s[i := x], CandidateKey), CandidateKey) == ById(s, CandidateKey)[x.id := x]
  {
    ReplaceInMap(s, i, x);
    SortKeepsMap(s[i := x], CandidateKey);
  }

  lemma Reassociate(a: seq<Rule>, b: seq<Rule>, c: seq<Rule>)
    ensures (a + b) + c == a + (b + c)
  {
  }

  lemma {:induction false} WithoutParts(a: seq<Rule>, b: seq<Rule>, ids: set<Id>)
    ensures WithoutRules(a + b, ids) == WithoutRules(a, ids) + WithoutRules(b, ids)
  {
    if a == [] {
      assert a + b == b;
    } else {
      WithoutParts(a[1..], b, ids);
      assert (a + b)[1..] == a[1..] + b;
      Reassociate([a[0]], WithoutRules(a[1..], ids), WithoutRules(b, ids));
    }
  }

  /** Splicing out the rule found under an id leaves the rules with other ids. */
  function Splice(rules: seq<Rule>, ruleId: Id): seq<Rule> {
    var k := Find(rules, ruleId, RuleKey);
    if k == -1 then rules else rules[..k] + rules[k + 1..]
  }

  lemma SpliceFound(front: seq<Rule>, r: Rule, back: seq<Rule>)
    requires forall q | q in front || q in back :: q.ruleId != r.ruleId
    ensures WithoutRules(front + ([r] + back), {r.ruleId}) == front + back
  {
    WithoutParts(front, [r] + back, {r.ruleId});
    WithoutParts([r], back, {r.ruleId});
    assert WithoutRules([r], {r.ruleId}) == [];
    WithoutAgain(front, {r.ruleId});
    WithoutAgain(back, {r.ruleId});
  }

  lemma OthersDiffer(rules: seq<Rule>, k: nat)
    requires UniqueIds(rules, RuleKey) && k < |rules|
    ensures forall q | q in rules[..k] || q in rules[k + 1..] :: q.ruleId != rules[k].ruleId
  {
  }

  lemma SpliceIsWithout(rules: seq<Rule>, ruleId: Id)
    requires UniqueIds(rules, RuleKey)
    ensures Splice(rules, ruleId) == WithoutRules(rules, {ruleId})
  {
    var k := Find(rules, ruleId, RuleKey);
    if k == -1 {
      assert forall r | r in rules :: RuleKey(r).id != ruleId;
      WithoutAgain(rules, {ruleId});
    } else {
      OthersDiffer(rules, k);
      assert rules == rules[..k] + ([rules[k]] + rules[k + 1..]);
      SpliceFound(rules[..k], rules[k], rules[k + 1..]);
    }
  }

  lemma DemoteNoneIsNoop(m: Memory, targets: set<Id>, at: Time, reasons: set<string>)
    requires Demotable(m, targets) == {}
    ensures DemoteAll(m, targets, at, reasons) == m
  {
    assert RuleIdsOf(m, {}) == {};
    WithoutNone(m.rules);
  }

  lemma DemoteOneInMap(m: Memory, id: Id, at: Time, reasons: set<string>)
    requires id in m.cands && m.cands[id].status != Demoted
    ensures DemoteAll(m, {id}, at, reasons) ==
            m.(cands := m.cands[id := DemotedCandidate(m.cands[id], at, reasons)],
               rules := WithoutRules(m.rules, {m.cands[id].ruleId}))
  {
    assert Demotable(m, {id}) == {id};
    assert RuleIdsOf(m, {id}) == {m.cands[id].ruleId};
    assert DemoteAll(m, {id}, at, reasons).cands == m.cands[id := DemotedCandidate(m.cands[id], at, reasons)];
  }

  /** Demoting one entry of the arrays is demoting its id in the memory. */
  lemma DemotionInArrays(m: Memory, candidates: seq<Candidate>, i: nat, at: Time, reasons: set<string>)
    requires UniqueIds(candidates, CandidateKey) && UniqueIds(m.rules, RuleKey) && m.cands == ById(candidates, CandidateKey)
    requires i < |candidates| && candidates[i].status != Demoted
    ensures var next := Sort(candidates[i := DemotedCandidate(candidates[i], at, reasons)], CandidateKey);
            var spliced := Splice(m.rules, candidates[i].ruleId);
            && UniqueIds(next, CandidateKey) && Ordered(next, CandidateKey) && UniqueIds(spliced, RuleKey)
            && DemoteAll(m, {candidates[i].id}, at, reasons) == m.(cands := ById(next, CandidateKey), rules := spliced)
  {
    var c := candidates[i];
    ByIdMembers(candidates, CandidateKey);
    assert c in candidates;
    ReplaceAndSort(candidates, i, DemotedCandidate(c, at, reasons));
    SpliceIsWithout(m.rules, c.ruleId);
    WithoutRulesUnique(m.rules, {c.ruleId});
    DemoteOneInMap(m, c.id, at, reasons);
  }

  /** `resolveDemotionTargetCandidateIds` reads the array. */
  function Matching(candidates: seq<Candidate>, ruleIds: seq<Id>, candidateIds: seq<Id>): (r: seq<Id>)
    ensures forall x :: x in r <==> exists c :: c in candidates && c.id == x && (c.id in candidateIds || c.ruleId in ruleIds)
  {
    if candidates == [] then []
    else
      var c, rest := candidates[0], Matching(candidates[1..], ruleIds, candidateIds);
      assert candidates == [c] + candidates[1..];
      if c.id in candidateIds || c.ruleId in ruleIds then [c.id] + rest else rest
  }

  function ResolveTargets(candidates: seq<Candidate>, ruleIds: seq<Id>, candidateIds: seq<Id>): seq<Id> {
    SortedUnique(candidateIds + Matching(candidates, ruleIds, candidateIds))
  }

  lemma ResolvedAreTargets(m: Memory, candidates: seq<Candidate>, ruleIds: seq<Id>, candidateIds: seq<Id>)
    requires UniqueIds(candidates, CandidateKey) && m.cands == ById(candidates, CandidateKey)
    ensures var resolved := ResolveTargets(candidates, ruleIds, candidateIds);
            Ascending(resolved) && forall x :: x in resolved <==> x in Targets(m, ruleIds, candidateIds)
  {
    ByIdMembers(candidates, CandidateKey);
    var matching := Matching(candidates, ruleIds, candidateIds);
    forall x ensures x in candidateIds + matching <==> x in Targets(m, ruleIds, candidateIds) {
      if x in m.cands {
        assert m.cands[x] in candidates;
      }
    }
  }

  ghost function Seen(ids: seq<Id>, n: nat): set<Id>
    requires n <= |ids|
  {
    set id | id in ids[..n]
  }

  lemma SeenNext(ids: seq<Id>, n: nat)
    requires n < |ids|
    ensures Seen(ids, n + 1) == Seen(ids, n) + {ids[n]}
  {
  }

  /** No rule is under any of some ids. */
  predicate NoneOf(rules: seq<Rule>, ids: set<Id>) { forall r | r in rules :: r.ruleId !in ids }

  /** The first `n` of some ids have been spliced out, with a record of whether any rule went. */
  ghost predicate Removing(start: seq<Rule>, rules: seq<Rule>, ids: seq<Id>, n: nat, removed: set<Id>, any: bool)
    requires n <= |ids|
  {
    && UniqueIds(rules, RuleKey)
    && rules == WithoutRules(start, Seen(ids, n))
    && NoneOf(rules, removed)
    && if any then |rules| < |start| else rules == start
  }

  lemma RemoveOneMore(start: seq<Rule>, rules: seq<Rule>, ids: seq<Id>, n: nat, removed: set<Id>, any: bool)
    requires n < |ids| && Removing(start, rules, ids, n, removed, any)
    ensures Removing(start, Splice(rules, ids[n]), ids, n + 1, removed, any || Find(rules, ids[n], RuleKey) != -1)
    ensures ids[n] in removed ==> Splice(rules, ids[n]) == rules && Find(rules, ids[n], RuleKey) == -1
  {
    SpliceIsWithout(rules, ids[n]);
    WithoutRulesUnique(rules, {ids[n]});
    WithoutBoth(start, Seen(ids, n), {ids[n]});
    SeenNext(ids, n);
    assert forall r | r in rules :: RuleKey(r).id == r.ruleId;
  }

  lemma RemovingEnds(start: seq<Rule>, rules: seq<Rule>, ids: seq<Id>, removed: set<Id>, any: bool)
    requires Removing(start, rules, ids, |ids|, removed, any)
    ensures rules == WithoutRules(start, Seen(ids, |ids|)) && UniqueIds(rules, RuleKey)
    ensures any <==> rules != start
  {
  }

  lemma RemovingStarts(start: seq<Rule>, ids: seq<Id>, removed: set<Id>)
    requires UniqueIds(start, RuleKey) && NoneOf(start, removed)
    ensures Removing(start, start, ids, 0, removed, false)
  {
    assert Seen(ids, 0) == {};
    WithoutNone(start);
  }

  /** Overwriting records in place under their ids, each by `f`. */
  lemma MapInPlace(s: seq<Candidate>, t: seq<Candidate>, f: Candidate -> Candidate)
    requires UniqueIds(s, CandidateKey) && |t| == |s|
    requires forall i | 0 <= i < |s| :: t[i] == f(s[i]) && t[i].id == s[i].id
    ensures UniqueIds(t, CandidateKey)
    ensures ById(t, CandidateKey) == map id | id in ById(s, CandidateKey) :: f(ById(s, CandidateKey)[id])
  {
    assert UniqueIds(t, CandidateKey) by {
      assert forall i, j | 0 <= i < j < |t| :: CandidateKey(s[i]).id != CandidateKey(s[j]).id;
    }
    var m, n := ById(s, CandidateKey), ById(t, CandidateKey);
    forall id ensures id in m <==> id in n {
      MapInPlaceAt(s, t, f, id);
    }
    forall id | id in m ensures id in n && n[id] == f(m[id]) {
      MapInPlaceAt(s, t, f, id);
    }
  }

  lemma MapInPlaceAt(s: seq<Candidate>, t: seq<Candidate>, f: Candidate -> Candidate, id: Id)
    requires UniqueIds(s, CandidateKey) && UniqueIds(t, CandidateKey) && |t| == |s|
    requires forall i | 0 <= i < |s| :: t[i] == f(s[i]) && t[i].id == s[i].id
    ensures id in ById(s, CandidateKey) <==> id in ById(t, CandidateKey)
    ensures id in ById(s, CandidateKey) ==> ById(t, CandidateKey)[id] == f(ById(s, CandidateKey)[id])
  {
    FindInMap(s, id, CandidateKey);
    FindInMap(t, id, CandidateKey);
  }

  lemma UtilityInArrays(m: Memory, s: seq<Candidate>, t: seq<Candidate>, ruleIds: seq<Id>, candidateIds: seq<Id>,
                        signalId: Id, delta: real, at: Time)
    requires UniqueIds(s, CandidateKey) && m.cands == ById(s, CandidateKey) && |t| == |s|
    requires forall i | 0 <= i < |s| :: t[i] == SignalTarget(s[i], ruleIds, candidateIds, signalId, delta, at)
    ensures UniqueIds(t, CandidateKey)
    ensures ById(t, CandidateKey) == ApplyUtility(m, ruleIds, candidateIds, signalId, delta, at).cands
  {
    MapInPlace(s, t, (c: Candidate) => SignalTarget(c, ruleIds, candidateIds, signalId, delta, at));
  }

  /** The branch of an adjustment that nothing knows of. */
  lemma NewAdjustment(ids: IdScheme, m: Memory, givenId: Option<Id>, request: Adjustment)
    requires |request.reasonCodes| <= MAX_LIST_ITEMS && request.candidateId in m.cands
    requires Find(m.ledger, AdjustmentId(ids, givenId, request), LedgerKey) == -1
    requires FindAdjustmentEvent(m.audit, AdjustmentId(ids, givenId, request)).None?
    ensures var p, id := Normalized(request), AdjustmentId(ids, givenId, request);
            AddWeight(ids, m, givenId, request) ==
            if |p.reasonCodes| > MAX_LIST_ITEMS then Reply(Weighed(m, id, p), Rejected(AuditRefused))
            else Reply(Adjusted(ids, m, id, p), Applied)
  {
  }

  lemma WeighedParts(m: Memory, adjustmentId: Id, p: Adjustment, n: Memory)
    requires p.candidateId in m.cands
    requires var c := m.cands[p.candidateId];
             var next := Reweighted(c, adjustmentId, p);
             && n.cands == m.cands[p.candidateId := next]
             && n.rules == ReweightRule(m.rules, c.ruleId, next.confidence, p.at)
    requires n == m.(cands := n.cands, rules := n.rules)
    ensures n == Weighed(m, adjustmentId, p)
  {
  }

  lemma AdjustedParts(ids: IdScheme, m: Memory, adjustmentId: Id, p: Adjustment)
    requires p.candidateId in m.cands
    ensures var w, event := Weighed(m, adjustmentId, p), WeightEvent(ids, m, adjustmentId, p);
            Adjusted(ids, m, adjustmentId, p) ==
            w.(audit := Append(w.audit, event, AuditKey, MAX_AUDIT_EVENTS),
               ledger := Enter(w.ledger, LedgerEntry(adjustmentId, p, event.id, p.at)))
  {
  }

  lemma ListedIs(m: Memory, resolved: seq<Id>, targets: set<Id>)
    requires Ascending(resolved) && forall x :: x in resolved <==> x in targets
    ensures Listed(targets) == resolved
  {
    AscendingDetermined(Listed(targets), resolved);
  }

  /** What a tick has done when it has visited some of the candidates. */
  ghost function PartTick(m: Memory, visited: set<Id>, at: Time): Memory {
    m.(cands := map id | id in m.cands :: if id in visited then TickStep(m.cands[id], at) else m.cands[id],
       rules := WithoutRules(m.rules, RuleIdsOf(m, Expiring(m, at) * visited)))
  }

  lemma PartTickNone(m: Memory, at: Time)
    ensures PartTick(m, {}, at) == m
  {
    assert Expiring(m, at) * {} == {};
    assert RuleIdsOf(m, {}) == {};
    WithoutNone(m.rules);
  }

  lemma PartTickAll(m: Memory, visited: set<Id>, at: Time)
    requires m.cands.Keys <= visited
    ensures PartTick(m, visited, at) == Tick(m, at)
  {
    assert Expiring(m, at) * visited == Expiring(m, at);
  }

  /** Visiting a candidate that expires demotes it. */
  lemma PartTickExpires(m: Memory, visited: set<Id>, id: Id, at: Time)
    requires id in m.cands && id !in visited && Expires(m.cands[id], at)
    ensures DemoteAll(PartTick(m, visited, at), {id}, at, {"candidate_expired"}) == PartTick(m, visited + {id}, at)
  {
    var part, next := PartTick(m, visited, at), PartTick(m, visited + {id}, at);
    DemoteOneInMap(part, id, at, {"candidate_expired"});
    assert Expiring(m, at) * (visited + {id}) == Expiring(m, at) * visited + {id};
    assert RuleIdsOf(m, Expiring(m, at) * visited + {id}) == RuleIdsOf(m, Expiring(m, at) * visited) + {m.cands[id].ruleId};
    WithoutBoth(m.rules, RuleIdsOf(m, Expiring(m, at) * visited), {m.cands[id].ruleId});
    assert next.cands == part.cands[id := DemotedCandidate(m.cands[id], at, {"candidate_expired"})];
  }

  /** Visiting any other candidate touches nothing but it. */
  lemma PartTickStays(m: Memory, visited: set<Id>, id: Id, at: Time)
    requires id in m.cands && id !in visited && !Expires(m.cands[id], at)
    ensures PartTick(m, visited + {id}, at) ==
            PartTick(m, visited, at).(cands := PartTick(m, visited, at).cands[id := TickStep(m.cands[id], at)])
  {
    var part, next := PartTick(m, visited, at), PartTick(m, visited + {id}, at);
    assert Expiring(m, at) * (visited + {id}) == Expiring(m, at) * visited;
    assert next.cands == part.cands[id := TickStep(m.cands[id], at)];
  }

  function CandidateIds(s: seq<Candidate>): (r: seq<Id>)
    ensures |r| == |s| && forall i | 0 <= i < |s| :: r[i] == s[i].id
  {
    seq(|s|, i requires 0 <= i < |s| => s[i].id)
  }

  lemma CandidateIdsOf(s: seq<Candidate>)
    requires UniqueIds(s, CandidateKey)
    ensures forall i, j | 0 <= i < j < |s| :: CandidateIds(s)[i] != CandidateIds(s)[j]
    ensures forall id :: id in CandidateIds(s) <==> id in ById(s, CandidateKey)
    ensures forall id | id in ById(s, CandidateKey) :: ById(s, CandidateKey)[id].id == id
  {
    assert forall i, j | 0 <= i < j < |s| :: CandidateKey(s[i]).id != CandidateKey(s[j]).id;
    forall id ensures id in CandidateIds(s) <==> id in ById(s, CandidateKey) {
      FindInMap(s, id, CandidateKey);
      var k := Find(s, id, CandidateKey);
      assert k != -1 ==> CandidateIds(s)[k] == id;
      assert k == -1 ==> forall i | 0 <= i < |s| :: CandidateKey(s[i]).id != id;
    }
    ByIdMembers(s, CandidateKey);
  }

  /** The ids in the order a tick visits them: each candidate's, once. */
  lemma VisitOrder(candidates: seq<Candidate>)
    requires UniqueIds(candidates, CandidateKey)
    ensures var ordered, m := CandidateIds(Sort(candidates, CandidateKey)), ById(candidates, CandidateKey);
            && |ordered| == |candidates|
            && (forall i, j | 0 <= i < j < |ordered| :: ordered[i] != ordered[j])
            && (forall id :: id in ordered <==> id in m)
            && (forall id | id in m :: m[id].id == id)
  {
    SortKeepsMap(candidates, CandidateKey);
    CandidateIdsOf(Sort(candidates, CandidateKey));
  }

  lemma NotSeenYet(ids: seq<Id>, n: nat)
    requires n < |ids| && forall i, j | 0 <= i < j < |ids| :: ids[i] != ids[j]
    ensures ids[n] !in Seen(ids, n)
  {
  }

  /** The members of `all` among the visited, in the order of the visit. */
  ghost function Picked(visited: seq<Id>, all: set<Id>): seq<Id> {
    if visited == [] then []
    else
      var front, last := Picked(visited[..|visited| - 1], all), visited[|visited| - 1];
      if last in all then front + [last] else front
  }

  lemma {:induction false} PickedMembers(visited: seq<Id>, all: set<Id>)
    ensures forall id :: id in Picked(visited, all) <==> id in visited && id in all
  {
    if visited != [] {
      PickedMembers(visited[..|visited| - 1], all);
      assert visited == visited[..|visited| - 1] + [visited[|visited| - 1]];
    }
  }

  function Note(list: seq<Id>, id: Id, noted: bool): (r: seq<Id>)
    ensures |r| == |list| + if noted then 1 else 0
  {
    if noted then list + [id] else list
  }

  lemma {:induction false} PickedDistinct(visited: seq<Id>, all: set<Id>)
    requires forall i, j | 0 <= i < j < |visited| :: visited[i] != visited[j]
    ensures forall i, j | 0 <= i < j < |Picked(visited, all)| :: Picked(visited, all)[i] != Picked(visited, all)[j]
  {
    if visited != [] {
      var front, last := visited[..|visited| - 1], visited[|visited| - 1];
      var f := Picked(front, all);
      PickedDistinct(front, all);
      PickedMembers(front, all);
      forall i | 0 <= i < |f| ensures f[i] != last {
        assert f[i] in f;
        var k :| 0 <= k < |front| && front[k] == f[i];
        assert visited[k] == f[i];
      }
      assert Picked(visited, all) == f || Picked(visited, all) == f + [last];
    }
  }

  /** When everything was visited, the picked ones sort to the whole set. */
  lemma PickedAll(visited: seq<Id>, all: set<Id>)
    requires forall i, j | 0 <= i < j < |visited| :: visited[i] != visited[j]
    requires forall id | id in all :: id in visited
    ensures SortedUnique(Picked(visited, all)) == Listed(all)
    ensures |Picked(visited, all)| == |Listed(all)| == |all|
  {
    var picked := Picked(visited, all);
    PickedDistinct(visited, all);
    PickedMembers(visited, all);
    SortedUniqueLength(picked);
    DistinctLength(picked);
    assert all == set x | x in picked;
    AscendingDetermined(Listed(all), SortedUnique(picked));
  }

  /** The candidates whose decay cursor a tick moves, and those of them whose confidence changes. */
  ghost function Advancing(m: Memory, at: Time): set<Id> {
    set id | id in m.cands && !Expires(m.cands[id], at) && TickStep(m.cands[id], at) != m.cands[id]
  }

  ghost function Decaying(m: Memory, at: Time): set<Id> {
    set id | id in Advancing(m, at) && id in m.cands && TickStep(m.cands[id], at).confidence != Clamp01(m.cands[id].confidence)
  }

  datatype TickSummary = TickSummary(
    processed: nat, untouched: nat, demotedIds: seq<Id>, cursorsAdvanced: nat, decayedIds: seq<Id>)

  /** What one visit did. */
  datatype Visit = Visit(demoted: bool, advanced: bool, decayed: bool)

  ghost function VisitOf(m: Memory, id: Id, at: Time): Visit {
    Visit(id in Expiring(m, at), id in Advancing(m, at), id in Decaying(m, at))
  }

  function Tally(t: TickSummary, id: Id, v: Visit): TickSummary {
    TickSummary(t.processed + 1,
                t.untouched + (if v.demoted || v.advanced then 0 else 1),
                Note(t.demotedIds, id, v.demoted),
                t.cursorsAdvanced + (if v.advanced then 1 else 0),
                Note(t.decayedIds, id, v.decayed))
  }

  ghost function TallyOf(m: Memory, visited: seq<Id>, at: Time): TickSummary {
    if visited == [] then TickSummary(0, 0, [], 0, [])
    else Tally(TallyOf(m, visited[..|visited| - 1], at), visited[|visited| - 1], VisitOf(m, visited[|visited| - 1], at))
  }

  lemma TallyNext(m: Memory, visited: seq<Id>, n: nat, at: Time)
    requires n < |visited|
    ensures TallyOf(m, visited[..n + 1], at) == Tally(TallyOf(m, visited[..n], at), visited[n], VisitOf(m, visited[n], at))
  {
    assert visited[..n + 1][..n] == visited[..n];
  }

  lemma {:induction false} TallyCounts(m: Memory, visited: seq<Id>, at: Time)
    ensures var t := TallyOf(m, visited, at);
            && t.processed == |visited| == t.untouched + |t.demotedIds| + t.cursorsAdvanced
            && t.demotedIds == Picked(visited, Expiring(m, at))
            && t.cursorsAdvanced == |Picked(visited, Advancing(m, at))|
            && t.decayedIds == Picked(visited, Decaying(m, at))
  {
    if visited != [] {
      TallyCounts(m, visited[..|visited| - 1], at);
    }
  }

  /** A summary over all candidates, each visited once. */
  lemma TallyAll(m: Memory, visited: seq<Id>, at: Time)
    requires forall i, j | 0 <= i < j < |visited| :: visited[i] != visited[j]
    requires forall id | id in m.cands :: id in visited
    ensures var t := TallyOf(m, visited, at);
            && t.processed == |visited| == t.untouched + |SortedUnique(t.demotedIds)| + t.cursorsAdvanced
            && SortedUnique(t.demotedIds) == Listed(Expiring(m, at))
            && t.cursorsAdvanced == |Advancing(m, at)|
            && SortedUnique(t.decayedIds) == Listed(Decaying(m, at))
  {
    TallyCounts(m, visited, at);
    PickedAll(visited, Expiring(m, at));
    PickedAll(visited, Advancing(m, at));
    PickedAll(visited, Decaying(m, at));
  }

  lemma {:induction false} KeepParts(a: seq<Entry>, b: seq<Entry>, p: Entry -> bool)
    ensures Keep(a + b, p) == Keep(a, p) + Keep(b, p)
  {
    if a == [] {
      assert a + b == b;
    } else {
      KeepParts(a[1..], b, p);
      assert (a + b)[1..] == a[1..] + b;
      var first := if p(a[0]) then [a[0]] else [];
      assert first + (Keep(a[1..], p) + Keep(b, p)) == (first + Keep(a[1..], p)) + Keep(b, p);
    }
  }

  lemma TierListNext(overflow: seq<Entry>, i: nat, at: Time, tier: Tier)
    requires i < |overflow|
    ensures TierList(overflow[..i + 1], at, tier) ==
            TierList(overflow[..i], at, tier) + if ArchiveTier(overflow[i], at) == tier then [overflow[i].id] else []
  {
    assert overflow[..i + 1] == overflow[..i] + [overflow[i]];
    var p := (e: Entry) => ArchiveTier(e, at) == tier;
    KeepParts(overflow[..i], [overflow[i]], p);
    assert Keep([overflow[i]], p) == if p(overflow[i]) then [overflow[i]] else [];
  }

  lemma ArchiveAllNext(archiveId: ArchiveSeed -> Id, overflow: seq<Entry>, i: nat, at: Time)
    requires i < |overflow|
    ensures ArchiveAll(archiveId, overflow[..i + 1], at) ==
            ArchiveAll(archiveId, overflow[..i], at) + [Archive(archiveId, overflow[i], at)]
  {
  }

  /** The mark an entry gets from the lists its id is looked up in. */
  function MarkByList(e: Entry, active: seq<Id>, warm: seq<Id>, cold: seq<Id>, frozen: seq<Id>, at: Time): Entry {
    var tier := if e.id in active then Active else if e.id in warm then Warm else if e.id in cold then Cold
                else if e.id in frozen then Frozen else Warm;
    e.(tier := Some(tier), activeReview := e.id in active, rebalancedAt := Some(at))
  }

  function MarkedByLists(entries: seq<Entry>, active: seq<Id>, warm: seq<Id>, cold: seq<Id>, frozen: seq<Id>, at: Time): seq<Entry> {
    seq(|entries|, i requires 0 <= i < |entries| => MarkByList(entries[i], active, warm, cold, frozen, at))
  }

  lemma MarkByLists(entries: seq<Entry>, limit: nat, at: Time, warm: seq<Id>, cold: seq<Id>, frozen: seq<Id>)
    requires UniqueIds(entries, ReviewKey)
    requires warm == TierList(Overflow(entries, limit), at, Warm) && cold == TierList(Overflow(entries, limit), at, Cold)
    requires frozen == TierList(Overflow(entries, limit), at, Frozen)
    ensures var active := ActiveIds(entries, limit);
            MarkedByLists(entries, active, warm, cold, frozen, at) == MarkedAll(entries, active, at)
  {
    forall i | 0 <= i < |entries|
      ensures MarkByList(entries[i], ActiveIds(entries, limit), warm, cold, frozen, at)
           == Marked(entries[i], ActiveIds(entries, limit), at)
    {
      var e, overflow := entries[i], Overflow(entries, limit);
      WhereEntriesGo(entries, limit, at, e);
      assert e.id in warm <==> e.id in TierIds(overflow, at, Warm);
      assert e.id in cold <==> e.id in TierIds(overflow, at, Cold);
      assert e.id in frozen <==> e.id in TierIds(overflow, at, Frozen);
    }
  }

  lemma StepEntriesUnique(entries: seq<Entry>, at: Time, consolidating: bool)
    requires UniqueIds(entries, ReviewKey)
    ensures UniqueIds(StepEntries(entries, at, consolidating), ReviewKey)
  {
  }

  lemma MarkedUnique(entries: seq<Entry>, active: seq<Id>, at: Time)
    requires UniqueIds(entries, ReviewKey)
    ensures UniqueIds(MarkedAll(entries, active, at), ReviewKey)
  {
  }

  class ProfileState {
    const ids: IdScheme
    const archiveId: ArchiveSeed -> Id

    var candidates: seq<Candidate>
    var rules: seq<Rule>
    var evaluations: seq<Evaluation>
    var feedback: seq<FeedbackRecord>
    var outcomes: seq<OutcomeRecord>
    var ledger: seq<LedgerEntry>
    var auditTrail: seq<AuditEvent>

    var clocks: Clocks
    var entries: seq<Entry>
    var tiers: Tiers

    ghost predicate Valid()
      reads this
    {
      && UniqueIds(candidates, CandidateKey)
      && UniqueIds(rules, RuleKey)
      && UniqueIds(feedback, FeedbackKey)
      && UniqueIds(outcomes, OutcomeKey)
      && UniqueIds(entries, ReviewKey)
    }

    ghost function View(): Memory
      requires Valid()
      reads this
    {
      Memory(ById(candidates, CandidateKey), rules, evaluations, ById(feedback, FeedbackKey), ById(outcomes, OutcomeKey),
             ledger, auditTrail)
    }

    constructor (ids: IdScheme, archiveId: ArchiveSeed -> Id)
      ensures Valid() && View() == EMPTY && this.ids == ids && this.archiveId == archiveId
      ensures entries == []
    {
      this.ids, this.archiveId := ids, archiveId;
      candidates, rules, evaluations, feedback, outcomes, ledger, auditTrail := [], [], [], [], [], [], [];
      clocks := Clocks(0, 0, 0, 8, 0, 8, 0, NoCause, 0, 0, 0);
      entries, tiers := [], Tiers(32, [], [], [], [], [], 0);
    }

    // ----- candidates ----------------------------------------------------------------------

    /** `applyCandidateDemotion` on the candidate at `index`, or on none. */
    method ApplyCandidateDemotion(index: int, at: Time, reasons: set<string>)
      returns (demoted: bool, removedRuleId: Option<Id>)
      requires Valid() && -1 <= index < |candidates|
      modifies `candidates, `rules
      ensures Valid()
      ensures demoted <==> index != -1 && old(candidates)[index].status != Demoted
      ensures index != -1 ==> View() == DemoteAll(old(View()), {old(candidates)[index].id}, at, reasons)
      ensures demoted ==> Ordered(candidates, CandidateKey)
      ensures !demoted ==> candidates == old(candidates) && rules == old(rules)
      ensures removedRuleId == if demoted && HasRule(old(rules), old(candidates)[index].ruleId)
                               then Some(old(candidates)[index].ruleId) else None
    {
      demoted, removedRuleId := false, None;
      if index != -1 {
        var c := candidates[index];
        ByIdMembers(candidates, CandidateKey);
        assert c in candidates;
        if c.status == Demoted {
          DemoteNoneIsNoop(View(), {c.id}, at, reasons);
        } else {
          DemotionInArrays(View(), candidates, index, at, reasons);
          candidates := Sort(candidates[index := DemotedCandidate(c, at, reasons)], CandidateKey);
          var k := Find(rules, c.ruleId, RuleKey);
          if k != -1 {
            assert rules[k] in rules;
            rules := rules[..k] + rules[k + 1..];
            removedRuleId := Some(c.ruleId);
          }
          demoted := true;
        }
      }
    }

    /** Overwrite one entry and sort the array again. */
    method SetCandidate(index: nat, next: Candidate)
      requires UniqueIds(candidates, CandidateKey) && index < |candidates| && candidates[index].id == next.id
      modifies `candidates
      ensures UniqueIds(candidates, CandidateKey) && Ordered(candidates, CandidateKey)
      ensures ById(candidates, CandidateKey) == ById(old(candidates), CandidateKey)[next.id := next]
    {
      ReplaceAndSort(candidates, index, next);
      candidates := Sort(candidates[index := next], CandidateKey);
    }

    /** Push a new candidate, or overwrite the stored one with both merged. */
    method WriteCandidate(incoming: Candidate, at: Time)
      requires Valid()
      modifies `candidates
      ensures Valid() && View() == WriteOne(old(View()), incoming, at)
    {
      var k := Find(candidates, incoming.id, CandidateKey);
      FindInMap(candidates, incoming.id, CandidateKey);
      if k == -1 {
        PutInMap(candidates, incoming, CandidateKey);
        candidates := candidates + [incoming];
      } else {
        ReplaceInMap(candidates, k, Rewritten(candidates[k], incoming, at));
        candidates := candidates[k := Rewritten(candidates[k], incoming, at)];
      }
    }

    method RunShadowWrite(batch: seq<WriteRequest>, at: Time) returns (verdict: Verdict)
      requires Valid()
      modifies `candidates
      ensures Valid()
      ensures Reply(View(), verdict) == ShadowWrite(ids, old(View()), batch, at)
      ensures verdict == Applied ==> Ordered(candidates, CandidateKey)
    {
      var i := 0;
      while i < |batch|
        invariant 0 <= i <= |batch| && Valid()
        invariant ShadowWrite(ids, View(), batch[i..], at) == ShadowWrite(ids, old(View()), batch, at)
      {
        assert batch[i..][0] == batch[i] && batch[i..][1..] == batch[i + 1..];
        var error := WriteError(batch[i]);
        if error.Some? {
          return Rejected(error.value);
        }
        WriteCandidate(NormalizeShadowCandidate(ids, batch[i]), at);
        i := i + 1;
      }
      SortKeepsMap(candidates, CandidateKey);
      candidates := Sort(candidates, CandidateKey);
      verdict := Applied;
    }

    /** `computeTrailingNegativeNetValueStreak`. */
    method TrailingStreak(evals: seq<Evaluation>, candidateId: Id) returns (streak: nat)
      ensures streak == Trailing(evals, candidateId)
    {
      streak := 0;
      var index := |evals| - 1;
      assert evals[..index + 1] == evals;
      while index >= 0
        invariant -1 <= index < |evals|
        invariant Trailing(evals, candidateId) == streak + Trailing(evals[..index + 1], candidateId)
        decreases index
      {
        var e := evals[index];
        assert evals[..index + 1][..index] == evals[..index];
        if e.seed.candidateId == candidateId {
          if e.net < 0 {
            streak := streak + 1;
          } else {
            break;
          }
        }
        index := index - 1;
      }
    }

    /** Store an evaluation by id: push it, leave an equal one, or overwrite. */
    method StoreEvaluation(e: Evaluation) returns (action: EvalAction)
      modifies `evaluations
      ensures evaluations == Sort(Put(old(evaluations), e, EvalKey), EvalKey)
      ensures action == EvalActionOf(old(evaluations), e)
    {
      var k := Find(evaluations, e.id, EvalKey);
      if k == -1 {
        action := Created;
        evaluations := evaluations + [e];
      } else if evaluations[k] == e {
        action := Unchanged;
      } else {
        action := Updated;
        evaluations := evaluations[k := e];
      }
      assert evaluations == Put(old(evaluations), e, EvalKey);
      evaluations := Sort(evaluations, EvalKey);
    }

    /** Counted on after a created evaluation, recounted after an update. */
    method NextStreak(c: Candidate, action: EvalAction, e: Evaluation) returns (streak: nat)
      ensures streak == StreakAfter(c, action, e, evaluations)
    {
      streak := c.streak;
      if action == Created {
        streak := if e.net < 0 then c.streak + 1 else 0;
      } else if action == Updated {
        streak := TrailingStreak(evaluations, c.id);
      }
    }

    /** Store the evaluation and bring the candidate's cached fields up to date. */
    method RecordEvaluation(index: nat, e: Evaluation) returns (action: EvalAction)
      requires Valid() && index < |candidates| && candidates[index].id == e.seed.candidateId
      requires e.seed.candidateId in View().cands && View().cands[e.seed.candidateId] == candidates[index]
      modifies `candidates, `evaluations
      ensures Valid() && Ordered(candidates, CandidateKey)
      ensures View() == Record(old(View()), e)
      ensures action == EvalActionOf(old(evaluations), e)
    {
      var c := candidates[index];
      action := StoreEvaluation(e);
      var streak := NextStreak(c, action, e);
      SetCandidate(index, Evaluated(c, e, streak));
    }

    method RunReplayEval(q: EvalRequest) returns (verdict: Verdict)
      requires Valid()
      modifies `candidates, `rules, `evaluations
      ensures Valid()
      ensures Reply(View(), verdict) == ReplayEval(ids, old(View()), q)
      ensures verdict.Rejected? || Ordered(candidates, CandidateKey)
    {
      var index := Find(candidates, q.candidateId, CandidateKey);
      FindInMap(candidates, q.candidateId, CandidateKey);
      if index == -1 {
        return Rejected(CandidateNotFound);
      }
      var action := RecordEvaluation(index, Evaluate(ids, q));
      index := Find(candidates, q.candidateId, CandidateKey);
      FindInMap(candidates, q.candidateId, CandidateKey);
      if action != Unchanged && candidates[index].streak >= DEMOTION_STREAK {
        var _, _ := ApplyCandidateDemotion(index, q.at, {"sustained_negative_net_value"});
      }
      verdict := if action == Unchanged then Noop else Applied;
    }

    method RunPromote(candidateId: Id, at: Time, window: int) returns (verdict: Verdict)
      requires Valid()
      modifies `candidates, `rules
      ensures Valid()
      ensures Reply(View(), verdict) == Promote(old(View()), candidateId, at, window)
      ensures verdict == Applied ==> Ordered(candidates, CandidateKey)
    {
      var index := Find(candidates, candidateId, CandidateKey);
      FindInMap(candidates, candidateId, CandidateKey);
      if index == -1 {
        return Rejected(CandidateNotFound);
      }
      var c := candidates[index];
      var gate := GateEvaluation(evaluations, c);
      if gate.None? || !gate.value.pass || gate.value.regressions > 0 {
        return Rejected(GateNotPassed);
      }
      if !EvidenceFresh(c, at, window) {
        return Rejected(EvidenceNotFresh);
      }
      SetCandidate(index, PromotedCandidate(c, gate.value, at));
      PutRule(PromotedRule(c, gate.value, at));
      verdict := Applied;
    }

    /** Overwrite the rule with the same id in place, or push a new one. */
    method PutRule(rule: Rule)
      requires Valid()
      modifies `rules
      ensures Valid() && rules == Put(old(rules), rule, RuleKey)
    {
      PutMembers(rules, rule, RuleKey);
      var k := Find(rules, rule.ruleId, RuleKey);
      if k != -1 {
        if rules[k] != rule {
          rules := rules[k := rule];
        }
      } else {
        rules := rules + [rule];
      }
    }

    method RunDemote(candidateId: Id, at: Time, threshold: int, force: bool, reasons: set<string>) returns (verdict: Verdict)
      requires Valid()
      modifies `candidates, `rules
      ensures Valid()
      ensures Reply(View(), verdict) == Demote(old(View()), candidateId, at, threshold, force, reasons)
    {
      var index := Find(candidates, candidateId, CandidateKey);
      FindInMap(candidates, candidateId, CandidateKey);
      if index == -1 {
        return Rejected(CandidateNotFound);
      }
      var c := candidates[index];
      if !ShouldDemote(c, threshold, force) {
        return Noop;
      }
      var demoted, _ := ApplyCandidateDemotion(index, at, DemoteReasons(c, threshold, force, reasons));
      verdict := if demoted then Applied else Noop;
    }

    // ----- adjustments and the audit trail -------------------------------------------------

    /** `appendPolicyAuditTrail`; false when it throws because of too many reason codes. */
    method AppendPolicyAuditTrail(event: AuditEvent) returns (ok: bool)
      modifies `auditTrail
      ensures ok <==> |event.seed.reasons| <= MAX_LIST_ITEMS
      ensures auditTrail == if ok then Append(old(auditTrail), event, AuditKey, MAX_AUDIT_EVENTS) else old(auditTrail)
    {
      ok := |event.seed.reasons| <= MAX_LIST_ITEMS;
      if !ok {
        return;
      }
      if Find(auditTrail, event.id, AuditKey) != -1 {
        auditTrail := Last(Sort(auditTrail, AuditKey), MAX_AUDIT_EVENTS);
      } else {
        auditTrail := Last(Sort(auditTrail + [event], AuditKey), MAX_AUDIT_EVENTS);
      }
    }

    /** `upsertWeightAdjustmentLedgerEntry`; an entry under the same id with another digest is refused. */
    method UpsertLedgerEntry(entry: LedgerEntry) returns (ok: bool)
      modifies `ledger
      ensures ok <==> var k := Find(old(ledger), entry.id, LedgerKey); k == -1 || old(ledger)[k].digest == entry.digest
      ensures ledger == if ok then Enter(old(ledger), entry) else old(ledger)
    {
      var k := Find(ledger, entry.id, LedgerKey);
      if k != -1 {
        if ledger[k].digest != entry.digest {
          return false;
        }
        ledger := Last(Sort(ledger, LedgerKey), MAX_LEDGER_ENTRIES);
      } else {
        ledger := Last(Sort(ledger + [entry], LedgerKey), MAX_LEDGER_ENTRIES);
      }
      ok := true;
    }

    method RunAddWeight(givenId: Option<Id>, request: Adjustment) returns (verdict: Verdict)
      requires Valid()
      modifies `candidates, `rules, `ledger, `auditTrail
      ensures Valid()
      ensures Reply(View(), verdict) == AddWeight(ids, old(View()), givenId, request)
    {
      if |request.reasonCodes| > MAX_LIST_ITEMS {
        return Rejected(TooManyReasonCodes);
      }
      var p, adjustmentId := Normalized(request), AdjustmentId(ids, givenId, request);
      var known := Find(ledger, adjustmentId, LedgerKey);
      if known != -1 {
        return if ledger[known].digest != p then Rejected(AdjustmentCollision) else Noop;
      }
      var index := Find(candidates, p.candidateId, CandidateKey);
      FindInMap(candidates, p.candidateId, CandidateKey);
      if index == -1 {
        return Rejected(CandidateNotFound);
      }
      var prior := FindAdjustmentEvent(auditTrail, adjustmentId);
      if prior.Some? {
        verdict := EnterPrior(prior.value, adjustmentId, p);
        return;
      }
      NewAdjustment(ids, View(), givenId, request);
      var logged := ApplyAdjustment(index, adjustmentId, p);
      verdict := if logged then Applied else Rejected(AuditRefused);
    }

    /** An adjustment that only the trail knows goes back into the ledger. */
    method EnterPrior(prior: AuditEvent, adjustmentId: Id, p: Adjustment) returns (verdict: Verdict)
      requires Valid() && prior.seed.detail.Weight? && Find(ledger, adjustmentId, LedgerKey) == -1
      modifies `ledger
      ensures Valid() && verdict == (if prior.seed.detail.digest != p then Rejected(AdjustmentCollision) else Noop)
      ensures View() == if verdict == Noop then
                          old(View()).(ledger := Enter(old(ledger), LedgerEntry(adjustmentId, p, prior.id, p.at)))
                        else old(View())
    {
      if prior.seed.detail.digest != p {
        return Rejected(AdjustmentCollision);
      }
      var _ := UpsertLedgerEntry(LedgerEntry(adjustmentId, p, prior.id, p.at));
      verdict := Noop;
    }

    /** Candidate and rule first, then the two logs unless the audit event is refused. */
    method ApplyAdjustment(index: nat, adjustmentId: Id, p: Adjustment) returns (logged: bool)
      requires Valid() && index < |candidates| && candidates[index].id == p.candidateId
      requires p.candidateId in View().cands && candidates[index] == View().cands[p.candidateId]
      requires Find(ledger, adjustmentId, LedgerKey) == -1
      modifies `candidates, `rules, `ledger, `auditTrail
      ensures Valid() && (logged <==> |p.reasonCodes| <= MAX_LIST_ITEMS)
      ensures View() == if logged then Adjusted(ids, old(View()), adjustmentId, p) else Weighed(old(View()), adjustmentId, p)
    {
      AdjustedParts(ids, View(), adjustmentId, p);
      var event := EventOfAdjustment(index, adjustmentId, p);
      WeighInPlace(index, adjustmentId, p);
      logged := LogWeighed(event, adjustmentId, p);
    }

    method WeighInPlace(index: nat, adjustmentId: Id, p: Adjustment)
      requires Valid() && index < |candidates| && candidates[index].id == p.candidateId
      requires p.candidateId in View().cands && candidates[index] == View().cands[p.candidateId]
      modifies `candidates, `rules
      ensures Valid() && View() == Weighed(old(View()), adjustmentId, p)
    {
      ghost var before := View();
      var c := candidates[index];
      var next := Reweighted(c, adjustmentId, p);
      SetCandidate(index, next);
      ReweightFoundRule(c.ruleId, next.confidence, p.at);
      WeighedParts(before, adjustmentId, p, View());
    }

    method EventOfAdjustment(index: nat, adjustmentId: Id, p: Adjustment) returns (event: AuditEvent)
      requires Valid() && index < |candidates|
      requires p.candidateId in View().cands && candidates[index] == View().cands[p.candidateId]
      ensures event == WeightEvent(ids, View(), adjustmentId, p)
    {
      var c := candidates[index];
      var previous, next := Clamp01(c.confidence), Reweighted(c, adjustmentId, p).confidence;
      var detail := Weight(adjustmentId, p, Micros(previous), Micros(next), Micros(next - previous),
                           RuleActionOf(rules, c.ruleId, next, p.at));
      var seed := AuditSeed("addweight", p.candidateId, "recorded", p.reasonCodes, detail, p.at);
      event := AuditEvent(ids.audit(seed), seed);
    }

    method LogAdjustment(event: AuditEvent, adjustmentId: Id, p: Adjustment) returns (logged: bool)
      requires Find(ledger, adjustmentId, LedgerKey) == -1
      modifies `ledger, `auditTrail
      ensures logged <==> |event.seed.reasons| <= MAX_LIST_ITEMS
      ensures auditTrail == if logged then Append(old(auditTrail), event, AuditKey, MAX_AUDIT_EVENTS) else old(auditTrail)
      ensures ledger == if logged then Enter(old(ledger), LedgerEntry(adjustmentId, p, event.id, p.at)) else old(ledger)
    {
      logged := AppendPolicyAuditTrail(event);
      if logged {
        var _ := UpsertLedgerEntry(LedgerEntry(adjustmentId, p, event.id, p.at));
      }
    }

    /** Nothing but the two logs changes. */
    method LogWeighed(event: AuditEvent, adjustmentId: Id, p: Adjustment) returns (logged: bool)
      requires Valid() && Find(ledger, adjustmentId, LedgerKey) == -1
      modifies `ledger, `auditTrail
      ensures Valid() && (logged <==> |event.seed.reasons| <= MAX_LIST_ITEMS)
      ensures View() == old(View()).(audit := auditTrail, ledger := ledger)
      ensures auditTrail == if logged then Append(old(auditTrail), event, AuditKey, MAX_AUDIT_EVENTS) else old(auditTrail)
      ensures ledger == if logged then Enter(old(ledger), LedgerEntry(adjustmentId, p, event.id, p.at)) else old(ledger)
    {
      ghost var was := View();
      logged := LogAdjustment(event, adjustmentId, p);
      assert View() == was.(audit := auditTrail, ledger := ledger);
    }

    method ReweightFoundRule(ruleId: Id, confidence: real, at: Time)
      requires Valid()
      modifies `rules
      ensures Valid() && rules == ReweightRule(old(rules), ruleId, confidence, at)
    {
      var k := Find(rules, ruleId, RuleKey);
      if k != -1 {
        var next := rules[k].(confidence := confidence, updatedAt := at);
        if rules[k] != next {
          rules := rules[k := next];
        }
      }
    }

    // ----- quarantine and manual override --------------------------------------------------

    /** Demote every resolved target in turn; used by quarantine and by harmful feedback. */
    method DemoteEach(resolved: seq<Id>, at: Time, reasons: set<string>) returns (any: bool, removed: set<Id>)
      requires Valid()
      modifies `candidates, `rules
      ensures Valid()
      ensures View() == DemoteAll(old(View()), Seen(resolved, |resolved|), at, reasons)
      ensures any <==> View() != old(View())
      ensures any <==> View().cands != old(View()).cands
      ensures NoneOf(rules, removed)
    {
      any, removed := false, {};
      ghost var before := View();
      DemoteNoneIsNoop(before, {}, at, reasons);
      assert Seen(resolved, 0) == {};
      var i := 0;
      while i < |resolved|
        invariant 0 <= i <= |resolved| && Valid()
        invariant View() == DemoteAll(before, Seen(resolved, i), at, reasons)
        invariant !any ==> View() == before
        invariant any ==> exists id :: id in before.cands && before.cands[id].status != Demoted && id in Seen(resolved, i)
        invariant NoneOf(rules, removed)
      {
        var index := Find(candidates, resolved[i], CandidateKey);
        FindInMap(candidates, resolved[i], CandidateKey);
        DemoteAllStep(before, Seen(resolved, i), resolved[i], at, reasons);
        SeenNext(resolved, i);
        if index == -1 {
          DemoteNoneIsNoop(View(), {resolved[i]}, at, reasons);
        } else {
          var demoted, removedRuleId := ApplyCandidateDemotion(index, at, reasons);
          any := any || demoted;
          if removedRuleId.Some? {
            removed := removed + {removedRuleId.value};
          }
        }
        i := i + 1;
      }
    }

    method SpliceRule(ruleId: Id) returns (found: bool)
      requires UniqueIds(rules, RuleKey)
      modifies `rules
      ensures rules == Splice(old(rules), ruleId)
      ensures found <==> Find(old(rules), ruleId, RuleKey) != -1
    {
      var k := Find(rules, ruleId, RuleKey);
      found := k != -1;
      if found {
        rules := rules[..k] + rules[k + 1..];
      }
    }

    /** Splice out the rules named directly, unless a demotion already removed them. */
    method RemoveRules(explicit: seq<Id>, removed: set<Id>) returns (any: bool)
      requires UniqueIds(rules, RuleKey) && NoneOf(rules, removed)
      modifies `rules
      ensures UniqueIds(rules, RuleKey) && rules == WithoutRules(old(rules), Seen(explicit, |explicit|))
      ensures any <==> rules != old(rules)
    {
      any := false;
      ghost var start := rules;
      RemovingStarts(start, explicit, removed);
      var j := 0;
      while j < |explicit|
        invariant 0 <= j <= |explicit| && Removing(start, rules, explicit, j, removed, any)
      {
        RemoveOneMore(start, rules, explicit, j, removed, any);
        if explicit[j] !in removed {
          var spliced := SpliceRule(explicit[j]);
          any := any || spliced;
        }
        j := j + 1;
      }
      RemovingEnds(start, rules, explicit, removed, any);
    }

    /** `applyIncidentEscalationQuarantine`: whether anything changed is reported. */
    method ApplyQuarantine(ruleIds: seq<Id>, candidateIds: seq<Id>, at: Time, reasons: set<string>) returns (changed: bool)
      requires Valid()
      modifies `candidates, `rules
      ensures Valid()
      ensures View() == Quarantine(old(View()), ruleIds, candidateIds, at, reasons)
      ensures changed <==> View() != old(View())
    {
      var resolved := ResolveTargets(candidates, ruleIds, candidateIds);
      ResolvedAreTargets(View(), candidates, ruleIds, candidateIds);
      assert Seen(resolved, |resolved|) == Targets(View(), ruleIds, candidateIds);
      var anyDemoted, removed := DemoteEach(resolved, at, reasons);
      ghost var middle := View();
      var explicit := SortedUnique(ruleIds);
      assert Seen(explicit, |explicit|) == set id | id in ruleIds;
      var anyDirect := RemoveRules(explicit, removed);
      changed := anyDemoted || anyDirect;
    }

    /** `applyManualPromotionOverride`: the candidates and the rules are sorted once, at the end. */
    method ApplyOverride(ruleIds: seq<Id>, candidateIds: seq<Id>, at: Time)
      requires Valid()
      modifies `candidates, `rules
      ensures Valid()
      ensures View() == Override(old(View()), ruleIds, candidateIds, at)
      ensures Ordered(candidates, CandidateKey) && Ordered(rules, RuleKey)
    {
      var resolved := ResolveTargets(candidates, ruleIds, candidateIds);
      ghost var before := View();
      ResolvedAreTargets(before, candidates, ruleIds, candidateIds);
      ListedIs(before, resolved, Targets(before, ruleIds, candidateIds));
      OverrideInTurn(resolved, at);
      SortRecords();
    }

    method SortRecords()
      requires Valid()
      modifies `candidates, `rules
      ensures Valid() && View() == old(View()).(rules := Sort(old(rules), RuleKey))
      ensures Ordered(candidates, CandidateKey) && Ordered(rules, RuleKey)
    {
      SortKeepsMap(candidates, CandidateKey);
      SortKeepsMap(rules, RuleKey);
      candidates := Sort(candidates, CandidateKey);
      rules := Sort(rules, RuleKey);
    }

    method OverrideInTurn(resolved: seq<Id>, at: Time)
      requires Valid()
      modifies `candidates, `rules
      ensures Valid() && View() == OverrideEach(old(View()), resolved, at)
    {
      var i := 0;
      assert resolved[..0] == [];
      while i < |resolved|
        invariant 0 <= i <= |resolved| && Valid()
        invariant View() == OverrideEach(old(View()), resolved[..i], at)
      {
        assert resolved[..i + 1][..i] == resolved[..i];
        OverrideCandidate(resolved[i], at);
        i := i + 1;
      }
      assert resolved[..i] == resolved;
    }

    method OverrideCandidate(id: Id, at: Time)
      requires Valid()
      modifies `candidates, `rules
      ensures Valid() && View() == OverrideOne(old(View()), id, at)
    {
      var index := Find(candidates, id, CandidateKey);
      FindInMap(candidates, id, CandidateKey);
      if index != -1 {
        var next := OverriddenCandidate(candidates[index], at);
        ReplaceInMap(candidates, index, next);
        if candidates[index].status != Promoted {
          candidates := candidates[index := next];
        } else {
          assert candidates[index := next] == candidates;
        }
        PutRule(OverrideRule(next, at));
      }
    }

    // ----- feedback, outcomes and curation -------------------------------------------------

    /** `applyUtilitySignalToCandidatesAndRules`. */
    method ApplyUtilitySignal(ruleIds: seq<Id>, candidateIds: seq<Id>, signalId: Id, delta: real, at: Time)
      requires Valid()
      modifies `candidates, `rules
      ensures Valid()
      ensures View() == ApplyUtility(old(View()), ruleIds, candidateIds, signalId, delta, at)
    {
      ghost var before := View();
      SignalCandidates(ruleIds, candidateIds, signalId, delta, at);
      SignalRules(ruleIds, signalId, delta);
      assert rules == ApplyUtility(before, ruleIds, candidateIds, signalId, delta, at).rules;
    }

    method SignalCandidates(ruleIds: seq<Id>, candidateIds: seq<Id>, signalId: Id, delta: real, at: Time)
      requires Valid()
      modifies `candidates
      ensures Valid()
      ensures ById(candidates, CandidateKey) == ApplyUtility(old(View()), ruleIds, candidateIds, signalId, delta, at).cands
    {
      ghost var start := candidates;
      var updated := false;
      var index := 0;
      while index < |candidates|
        invariant 0 <= index <= |candidates| == |start|
        invariant forall j | 0 <= j < index :: candidates[j] == SignalTarget(start[j], ruleIds, candidateIds, signalId, delta, at)
        invariant candidates[index..] == start[index..]
      {
        var c := candidates[index];
        assert c == start[index..][0];
        if (c.ruleId in ruleIds || c.id in candidateIds) && !Heard(c.utility, signalId) {
          candidates := candidates[index := c.(utility := Some(Signal(c.utility, signalId, delta)), updatedAt := at)];
          updated := true;
        }
        index := index + 1;
      }
      UtilityInArrays(old(View()), start, candidates, ruleIds, candidateIds, signalId, delta, at);
      if updated {
        SortKeepsMap(candidates, CandidateKey);
        candidates := Sort(candidates, CandidateKey);
      }
    }

    method SignalRules(ruleIds: seq<Id>, signalId: Id, delta: real)
      requires Valid()
      modifies `rules
      ensures Valid()
      ensures |rules| == |old(rules)| && forall j | 0 <= j < |rules| :: rules[j] == SignalRule(old(rules)[j], ruleIds, signalId, delta)
    {
      var index := 0;
      while index < |rules|
        invariant 0 <= index <= |rules| == |old(rules)|
        invariant forall j | 0 <= j < index :: rules[j] == SignalRule(old(rules)[j], ruleIds, signalId, delta)
        invariant forall j | index <= j < |rules| :: rules[j] == old(rules)[j]
      {
        var r := rules[index];
        if r.ruleId in ruleIds && !Heard(r.utility, signalId) {
          rules := rules[index := r.(utility := Some(Signal(r.utility, signalId, delta)))];
        }
        index := index + 1;
      }
      assert forall i, j | 0 <= i < j < |rules| :: RuleKey(old(rules)[i]).id != RuleKey(old(rules)[j]).id;
    }

    method RunFeedback(f: FeedbackRecord) returns (verdict: Verdict)
      requires Valid()
      modifies `candidates, `rules, `feedback
      ensures Valid()
      ensures Reply(View(), verdict) == Feedback(old(View()), f)
    {
      var k := Find(feedback, f.id, FeedbackKey);
      FindInMap(feedback, f.id, FeedbackKey);
      if k != -1 && feedback[k] == f {
        SortKeepsMap(feedback, FeedbackKey);
        feedback := Sort(feedback, FeedbackKey);
        return Noop;
      }
      PutInMap(feedback, f, FeedbackKey);
      SortKeepsMap(Put(feedback, f, FeedbackKey), FeedbackKey);
      feedback := Sort(if k == -1 then feedback + [f] else feedback[k := f], FeedbackKey);
      var ruleIds, candidateIds := AsList(f.ruleId), AsList(f.candidateId);
      ApplyUtilitySignal(ruleIds, candidateIds, f.id, if f.harmful then -0.18 else 0.12, f.at);
      if f.harmful {
        DemoteTargets(ruleIds, candidateIds, f.at, {"explicit_harmful_feedback"});
      }
      verdict := Applied;
    }

    method RunOutcome(o: OutcomeRecord) returns (verdict: Verdict)
      requires Valid()
      modifies `candidates, `rules, `outcomes
      ensures Valid()
      ensures Reply(View(), verdict) == Outcome(old(View()), o)
    {
      var k := Find(outcomes, o.id, OutcomeKey);
      FindInMap(outcomes, o.id, OutcomeKey);
      if k != -1 && outcomes[k] == o {
        SortKeepsMap(outcomes, OutcomeKey);
        outcomes := Sort(outcomes, OutcomeKey);
        return Noop;
      }
      PutInMap(outcomes, o, OutcomeKey);
      SortKeepsMap(Put(outcomes, o, OutcomeKey), OutcomeKey);
      outcomes := Sort(if k == -1 then outcomes + [o] else outcomes[k := o], OutcomeKey);
      ApplyUtilitySignal(o.usedRuleIds, [], o.id, if o.failure then -0.2 else 0.08, o.at);
      verdict := Applied;
    }

    method DemoteTargets(ruleIds: seq<Id>, candidateIds: seq<Id>, at: Time, reasons: set<string>)
      requires Valid()
      modifies `candidates, `rules
      ensures Valid()
      ensures View() == DemoteAll(old(View()), Targets(old(View()), ruleIds, candidateIds), at, reasons)
    {
      var resolved := ResolveTargets(candidates, ruleIds, candidateIds);
      ResolvedAreTargets(View(), candidates, ruleIds, candidateIds);
      assert Seen(resolved, |resolved|) == Targets(View(), ruleIds, candidateIds);
      var _, _ := DemoteEach(resolved, at, reasons);
    }

    /** `applyCurateMutations`. */
    method ApplyCurateMutations(winners: seq<Winner>, at: Time)
      requires Valid()
      modifies `rules
      ensures Valid() && View() == Curate(old(View()), winners, at)
    {
      var i := 0;
      assert winners[..0] == [];
      while i < |winners|
        invariant 0 <= i <= |winners| && Valid()
        invariant rules == CurateEach(old(rules), winners[..i], at)
      {
        assert winners[..i + 1][..i] == winners[..i];
        if winners[i].statement != "" {
          PutRule(CuratedRule(winners[i], at));
        }
        i := i + 1;
      }
      assert winners[..i] == winners;
      SortUnique(rules, RuleKey);
      rules := Sort(rules, RuleKey);
    }

    // ----- temporal maintenance ------------------------------------------------------------

    /** One candidate's turn in the maintenance tick: found again by id, because the array may have
        been sorted since. */
    method TickCandidate(id: Id, at: Time) returns (demoted: bool, advanced: bool, decayed: bool)
      requires Valid() && id in View().cands && View().cands[id].id == id
      modifies `candidates, `rules
      ensures Valid()
      ensures demoted <==> Expires(old(View()).cands[id], at)
      ensures advanced <==> !demoted && TickStep(old(View()).cands[id], at) != old(View()).cands[id]
      ensures decayed <==> advanced && TickStep(old(View()).cands[id], at).confidence != Clamp01(old(View()).cands[id].confidence)
      ensures demoted ==> View() == DemoteAll(old(View()), {id}, at, {"candidate_expired"})
      ensures !demoted ==> rules == old(rules)
                           && View().cands == old(View()).cands[id := TickStep(old(View()).cands[id], at)]
    {
      demoted, advanced, decayed := false, false, false;
      var index := Find(candidates, id, CandidateKey);
      FindInMap(candidates, id, CandidateKey);
      var c := candidates[index];
      var eligible := c.status == Shadow;
      if eligible && c.expiresAt < at {
        var removedRuleId;
        demoted, removedRuleId := ApplyCandidateDemotion(index, at, {"candidate_expired"});
        return;
      }
      if eligible {
        var elapsed := AgeDays(at, c.decayCursor);
        if elapsed > 0 {
          var confidence := Round6(MaxReal(CONFIDENCE_FLOOR, Times(Clamp01(c.confidence), Retained(elapsed))));
          var next := c.(confidence := confidence, decayCursor := at, decayTicks := c.decayTicks + 1,
                         decayDays := c.decayDays + elapsed);
          SetCandidate(index, next);
          advanced, decayed := true, confidence != Clamp01(c.confidence);
          return;
        }
      }
      assert View().cands[id := c] == View().cands;
    }

    /** The same turn, seen from the whole tick. */
    method VisitCandidate(ghost before: Memory, ghost visited: set<Id>, id: Id, at: Time) returns (v: Visit)
      requires Valid() && View() == PartTick(before, visited, at)
      requires id in before.cands && id !in visited && before.cands[id].id == id
      modifies `candidates, `rules
      ensures Valid() && View() == PartTick(before, visited + {id}, at)
      ensures v == VisitOf(before, id, at)
    {
      var demoted, advanced, decayed := TickCandidate(id, at);
      if demoted {
        PartTickExpires(before, visited, id, at);
      } else {
        PartTickStays(before, visited, id, at);
      }
      v := Visit(demoted, advanced, decayed);
    }

    method VisitAll(ordered: seq<Id>, at: Time) returns (summary: TickSummary)
      requires Valid()
      requires forall i, j | 0 <= i < j < |ordered| :: ordered[i] != ordered[j]
      requires forall id | id in ordered :: id in View().cands && View().cands[id].id == id
      modifies `candidates, `rules
      ensures Valid() && View() == PartTick(old(View()), Seen(ordered, |ordered|), at)
      ensures summary == TallyOf(old(View()), ordered, at)
    {
      ghost var before := View();
      summary := TickSummary(0, 0, [], 0, []);
      PartTickNone(before, at);
      assert forall id | id in ordered :: id in before.cands && before.cands[id].id == id;
      ghost var visited: set<Id> := {};
      var i := 0;
      while i < |ordered|
        invariant 0 <= i <= |ordered| && Valid()
        invariant View() == PartTick(before, visited, at) && visited == Seen(ordered, i)
        invariant summary == TallyOf(before, ordered[..i], at)
      {
        NotSeenYet(ordered, i);
        SeenNext(ordered, i);
        TallyNext(before, ordered, i, at);
        assert ordered[i] in ordered;
        var v := VisitCandidate(before, visited, ordered[i], at);
        summary := Tally(summary, ordered[i], v);
        visited := visited + {ordered[i]};
        i := i + 1;
      }
      assert ordered[..i] == ordered;
    }

    /** `runTemporalCandidateMaintenanceTick`: every candidate takes exactly one pure step, the rules
        of exactly the newly demoted go, and the summary accounts for every candidate. */
    method RunMaintenanceTick(at: Time) returns (summary: TickSummary)
      requires Valid()
      modifies `candidates, `rules
      ensures Valid()
      ensures View() == Tick(old(View()), at)
      ensures summary.processed == |old(candidates)|
      ensures summary.processed == summary.untouched + |summary.demotedIds| + summary.cursorsAdvanced
      ensures summary.demotedIds == Listed(Expiring(old(View()), at))
      ensures summary.cursorsAdvanced == |Advancing(old(View()), at)|
      ensures summary.decayedIds == Listed(Decaying(old(View()), at))
    {
      ghost var before := View();
      var ordered := CandidateIds(Sort(candidates, CandidateKey));
      VisitOrder(candidates);
      assert ordered[..|ordered|] == ordered;
      forall id | id in before.cands ensures id in Seen(ordered, |ordered|) {
        assert id in ordered;
      }
      summary := VisitAll(ordered, at);
      PartTickAll(before, Seen(ordered, |ordered|), at);
      TallyAll(before, ordered, at);
      summary := summary.(demotedIds := SortedUnique(summary.demotedIds), decayedIds := SortedUnique(summary.decayedIds));
    }

    // ----- dispatch ------------------------------------------------------------------------

    /** The audit event that ends most operations. */
    method RecordAuditEvent(op: Op) returns (verdict: Verdict)
      requires Valid() && op.OpAudit?
      modifies `auditTrail
      ensures Valid() && Reply(View(), verdict) == Step(ids, old(View()), op)
    {
      var ok := AppendPolicyAuditTrail(PlainEvent(ids, op));
      verdict := if ok then Applied else Rejected(TooManyReasonCodes);
    }

    /** The operations on one candidate or a batch of them. */
    method ExecuteOnCandidates(op: Op) returns (verdict: Verdict)
      requires Valid() && (op.OpShadowWrite? || op.OpReplayEval? || op.OpPromote? || op.OpDemote? || op.OpAddWeight?)
      modifies `candidates, `rules, `evaluations, `ledger, `auditTrail
      ensures Valid() && Reply(View(), verdict) == Step(ids, old(View()), op)
    {
      match op {
        case OpShadowWrite(batch, at) => verdict := RunShadowWrite(batch, at);
        case OpReplayEval(q) => verdict := RunReplayEval(q);
        case OpPromote(id, at, window) => verdict := RunPromote(id, at, window);
        case OpDemote(id, at, threshold, force, reasons) => verdict := RunDemote(id, at, threshold, force, reasons);
        case OpAddWeight(givenId, p) => verdict := RunAddWeight(givenId, p);
      }
    }

    /** The operations on targets and on the rulebook. */
    method ExecuteOnTargets(op: Op) returns (verdict: Verdict)
      requires Valid() && (op.OpQuarantine? || op.OpOverride? || op.OpCurate?)
      modifies `candidates, `rules
      ensures Valid() && Reply(View(), verdict) == Step(ids, old(View()), op)
    {
      verdict := Applied;
      match op {
        case OpQuarantine(rs, cs, at, reasons) => var _ := ApplyQuarantine(rs, cs, at, reasons);
        case OpOverride(rs, cs, at) => ApplyOverride(rs, cs, at);
        case OpCurate(winners, at) => ApplyCurateMutations(winners, at);
      }
    }

    /** A tick of which nobody asks the summary. */
    method TickProfile(at: Time)
      requires Valid()
      modifies `candidates, `rules
      ensures Valid() && View() == Tick(old(View()), at)
    {
      var _ := RunMaintenanceTick(at);
    }

    /** `executeOperation`: a run of calls takes the memory through `Run`. */
    method Execute(op: Op) returns (verdict: Verdict)
      requires Valid()
      modifies `candidates, `rules, `evaluations, `feedback, `outcomes, `ledger, `auditTrail
      ensures Valid() && Reply(View(), verdict) == Step(ids, old(View()), op)
    {
      verdict := Applied;
      match op {
        case OpFeedback(f) => verdict := RunFeedback(f);
        case OpOutcome(o) => verdict := RunOutcome(o);
        case OpAudit(_, _, _, _, _, _) => verdict := RecordAuditEvent(op);
        case OpQuarantine(_, _, _, _) => verdict := ExecuteOnTargets(op);
        case OpOverride(_, _, _) => verdict := ExecuteOnTargets(op);
        case OpCurate(_, _) => verdict := ExecuteOnTargets(op);
        case OpTick(at) => TickProfile(at);
        case _ => verdict := ExecuteOnCandidates(op);
      }
    }

    // ----- the review schedule -------------------------------------------------------------

    /** `rebalanceReviewSet`; false when it throws. */
    method RebalanceReviewSet(limit: nat, at: Time) returns (ok: bool)
      requires UniqueIds(entries, ReviewKey)
      modifies `entries, `tiers
      ensures var next := Rebalance(archiveId, Schedule(old(entries), old(tiers)), limit, at);
              && (ok <==> next.Some?)
              && Schedule(entries, tiers) == if ok then next.value else AfterThrow(Schedule(old(entries), old(tiers)))
    {
      if !Readable(tiers) {
        return false;
      }
      tiers := Normalised(tiers);
      var ordered := Sort(entries, ReviewKey);
      var active := IdsOf(Take(Keep(ordered, (e: Entry) => Reviewable(e)), limit));
      var overflow := Keep(ordered, (e: Entry) => e.id !in active);
      assert overflow == Overflow(entries, limit);
      var warm, cold, frozen, archived;
      ok, warm, cold, frozen, archived := CollectTiers(overflow, at);
      if !ok {
        return;
      }
      MarkByLists(entries, limit, at, warm, cold, frozen);
      entries := MarkedByLists(entries, active, warm, cold, frozen, at);
      tiers := Tiers(limit, active, SortedUnique(warm), SortedUnique(cold), SortedUnique(frozen),
                     Sort(archived, ArchiveKey), at);
    }

    /** The tier of an overflow entry, and its archived record unless its id lists are too long. */
    method ArchiveOne(e: Entry, at: Time) returns (tier: Tier, record: Option<ArchiveRecord>)
      ensures tier == ArchiveTier(e, at) && record == if Short(e) then Some(Archive(archiveId, e, at)) else None
    {
      var age := (at - e.dueAt) / DAY;
      tier := Warm;
      if e.status == Completed || age >= 90 {
        tier := Cold;
      }
      if age >= 365 {
        tier := Frozen;
      }
      if |e.sources| > MAX_LIST_ITEMS || |e.evidence| > MAX_LIST_ITEMS {
        return tier, None;
      }
      var seed := ArchiveSeed(e.id, tier);
      record := Some(ArchiveRecord(archiveId(seed), seed, e.targetId, at, e.dueAt, e.sources, e.evidence, e.status, e.repetition));
    }

    /** One pass over the overflow; false when an entry's own id lists are too long to archive. */
    method CollectTiers(overflow: seq<Entry>, at: Time)
      returns (ok: bool, warm: seq<Id>, cold: seq<Id>, frozen: seq<Id>, archived: seq<ArchiveRecord>)
      ensures ok <==> Archivable(overflow)
      ensures ok ==> warm == TierList(overflow, at, Warm) && cold == TierList(overflow, at, Cold)
      ensures ok ==> frozen == TierList(overflow, at, Frozen)
      ensures ok ==> archived == ArchiveAll(archiveId, overflow, at)
    {
      ok := true;
      warm, cold, frozen, archived := [], [], [], [];
      var i := 0;
      while i < |overflow|
        invariant 0 <= i <= |overflow|
        invariant warm == TierList(overflow[..i], at, Warm) && cold == TierList(overflow[..i], at, Cold)
        invariant frozen == TierList(overflow[..i], at, Frozen)
        invariant archived == ArchiveAll(archiveId, overflow[..i], at)
        invariant forall j | 0 <= j < i :: Short(overflow[j])
      {
        var e := overflow[i];
        var tier, record := ArchiveOne(e, at);
        if record.None? {
          assert !Short(overflow[i]);
          ok := false;
          return;
        }
        TierListNext(overflow, i, at, Warm);
        TierListNext(overflow, i, at, Cold);
        TierListNext(overflow, i, at, Frozen);
        ArchiveAllNext(archiveId, overflow, i, at);
        match tier {
          case Warm => warm := warm + [e.id];
          case Cold => cold := cold + [e.id];
          case _ => frozen := frozen + [e.id];
        }
        archived := archived + [record.value];
        i := i + 1;
      }
      assert overflow[..i] == overflow;
    }

    method StepClocks(q: ClockRequest) returns (consolidating: bool)
      modifies `clocks
      ensures clocks == ClockStep(old(clocks), q) && consolidating == Consolidates(old(clocks), q)
    {
      var c := clocks.(fatigueThreshold := q.fatigueThreshold, noveltyWriteThreshold := q.noveltyWriteThreshold);
      if q.mode != Sleep {
        c := c.(interactionTick := c.interactionTick + q.interactionIncrement,
                fatigueLoad := c.fatigueLoad + q.interactionIncrement + q.noveltyLoad + q.fatigueDelta,
                noveltyWriteLoad := c.noveltyWriteLoad + q.noveltyWriteLoad + q.noveltyLoad,
                lastInteractionAt := q.at);
      } else {
        c := c.(noveltyWriteLoad := c.noveltyWriteLoad + q.noveltyWriteLoad);
      }
      var cause := CauseOf(c, q);
      consolidating := q.forceSleep || q.mode == Sleep || c.fatigueLoad >= c.fatigueThreshold
                       || c.noveltyWriteLoad >= c.noveltyWriteThreshold;
      if consolidating {
        c := c.(sleepTick := c.sleepTick + Max(q.sleepIncrement, 1), consolidationCount := c.consolidationCount + 1,
                fatigueLoad := Max(0, c.fatigueLoad - Recovery(c.fatigueThreshold)), noveltyWriteLoad := 0,
                lastSleepAt := q.at, cause := cause);
      }
      clocks := c.(updatedAt := q.at);
    }

    /** The clock, the entries and the maintenance tick. */
    method StepBeforeRebalance(q: ClockRequest)
      requires Valid()
      modifies `clocks, `entries, `candidates, `rules
      ensures Valid() && View() == Tick(old(View()), q.at) && clocks == ClockStep(old(clocks), q)
      ensures entries == StepEntries(old(entries), q.at, Consolidates(old(clocks), q))
    {
      var consolidating := StepClocks(q);
      StepEntriesUnique(entries, q.at, consolidating);
      entries := StepEntries(entries, q.at, consolidating);
      TickProfile(q.at);
    }

    /** `runReviewScheduleClock`: those, and a rebalance under the stored limit.  When the rebalance
        throws, what came before it stays. */
    method RunReviewScheduleClock(q: ClockRequest) returns (ok: bool)
      requires Valid()
      modifies `clocks, `entries, `tiers, `candidates, `rules
      ensures Valid()
      ensures clocks == ClockStep(old(clocks), q)
      ensures View() == Tick(old(View()), q.at)
      ensures var stepped := Schedule(StepEntries(old(entries), q.at, Consolidates(old(clocks), q)), old(tiers));
              var next := Rebalance(archiveId, stepped, ActiveLimit(old(tiers).limit), q.at);
              && (ok <==> next.Some?)
              && Schedule(entries, tiers) == if ok then next.value else AfterThrow(stepped)
    {
      StepBeforeRebalance(q);
      ghost var stepped := Schedule(entries, tiers);
      ok := RebalanceReviewSet(ActiveLimit(tiers.limit), q.at);
      if ok {
        MarkedUnique(stepped.entries, tiers.active, q.at);
      }
    }
  }
}
