/** The cached count of trailing negative evaluations, and the demotion it triggers. */
module NegativeStreak {
  import opened Timeline
  import opened Lifecycle
  import opened RuleLinks
  import opened PromotionGate
  import opened BoundedLog

  /** One candidate's evaluations, in order. */
  ghost function Of(evals: seq<Evaluation>, candidateId: Id): seq<Evaluation> {
    if evals == [] then []
    else
      var front, last := Of(evals[..|evals| - 1], candidateId), evals[|evals| - 1];
      if last.seed.candidateId == candidateId then front + [last] else front
  }

  lemma {:induction false} OfMembers(evals: seq<Evaluation>, candidateId: Id)
    requires Ordered(evals, EvalKey)
    ensures forall e :: e in Of(evals, candidateId) <==> e in evals && e.seed.candidateId == candidateId
    ensures Ordered(Of(evals, candidateId), EvalKey)
  {
    if evals != [] {
      var front, last := evals[..|evals| - 1], evals[|evals| - 1];
      assert evals == front + [last];
      OfMembers(front, candidateId);
      var own := Of(front, candidateId);
      forall i | 0 <= i < |own| ensures Before(EvalKey(own[i]), EvalKey(last)) {
        assert own[i] in front;
        var k :| 0 <= k < |front| && front[k] == own[i];
        assert Before(EvalKey(evals[k]), EvalKey(evals[|evals| - 1]));
      }
    }
  }

  lemma {:induction false} TrailingOfOwn(evals: seq<Evaluation>, candidateId: Id)
    ensures Trailing(evals, candidateId) == Trailing(Of(evals, candidateId), candidateId)
  {
    if evals != [] {
      var front := Of(evals[..|evals| - 1], candidateId);
      TrailingOfOwn(evals[..|evals| - 1], candidateId);
      assert (front + [evals[|evals| - 1]])[..|front|] == front;
    }
  }

  /** The count, read off: that many of the candidate's last evaluations score below zero, and the one
      before them does not. */
  lemma {:induction false} TrailingIs(evals: seq<Evaluation>, candidateId: Id)
    ensures var own, t := Of(evals, candidateId), Trailing(evals, candidateId);
            && t <= |own| && (forall i | |own| - t <= i < |own| :: own[i].net < 0)
            && (t < |own| ==> own[|own| - t - 1].net >= 0)
  {
    if evals != [] {
      TrailingIs(evals[..|evals| - 1], candidateId);
    }
  }

  /** The count depends on nothing but the candidate's own evaluations. */
  lemma TrailingDependsOnOwn(a: seq<Evaluation>, b: seq<Evaluation>, candidateId: Id)
    requires Ordered(a, EvalKey) && Ordered(b, EvalKey)
    requires forall e: Evaluation | e.seed.candidateId == candidateId :: e in a <==> e in b
    ensures Trailing(a, candidateId) == Trailing(b, candidateId)
  {
    OfMembers(a, candidateId);
    OfMembers(b, candidateId);
    OrderedDetermined(Of(a, candidateId), Of(b, candidateId), EvalKey);
    TrailingOfOwn(a, candidateId);
    TrailingOfOwn(b, candidateId);
  }

  // ----- one created evaluation ------------------------------------------------------------

  /** An evaluation of the same candidate that sorts after `e`. */
  predicate Later(x: Evaluation, e: Evaluation) {
    x.seed.candidateId == e.seed.candidateId && Before(EvalKey(e), EvalKey(x))
  }

  ghost predicate AnyLater(evals: seq<Evaluation>, e: Evaluation) {
    exists x :: x in evals && Later(x, e)
  }

  ghost predicate AnyLaterPassing(evals: seq<Evaluation>, e: Evaluation) {
    exists x :: x in evals && Later(x, e) && x.net >= 0
  }

  /** What a caller can check before creating an evaluation out of order. */
  ghost predicate InStep(evals: seq<Evaluation>, e: Evaluation) {
    if e.net < 0 then !AnyLaterPassing(evals, e)
    else !AnyLater(evals, e) || Trailing(evals, e.seed.candidateId) == 0
  }

  lemma LaterSnoc(front: seq<Evaluation>, last: Evaluation, e: Evaluation)
    ensures AnyLater(front + [last], e) <==> AnyLater(front, e) || Later(last, e)
    ensures AnyLaterPassing(front + [last], e) <==> AnyLaterPassing(front, e) || (Later(last, e) && last.net >= 0)
  {
  }

  lemma TrailingSnoc(front: seq<Evaluation>, last: Evaluation, c: Id)
    ensures Trailing(front + [last], c) ==
            if last.seed.candidateId != c then Trailing(front, c) else if last.net < 0 then 1 + Trailing(front, c) else 0
  {
  }

  lemma NoneLaterThanGreatest(front: seq<Evaluation>, last: Evaluation, e: Evaluation)
    requires Ordered(front + [last], EvalKey) && !Before(EvalKey(e), EvalKey(last))
    ensures !AnyLater(front + [last], e)
  {
    forall x | x in front + [last] ensures !Later(x, e) {
      LastIsGreatest(front + [last], x, EvalKey);
    }
  }

  /** How an insertion moves the count, by whether later ones, and later passing ones, are there. */
  predicate Moves(negative: bool, later: bool, laterPassing: bool, before: nat, after: nat) {
    && (laterPassing ==> later)
    && if laterPassing then after == before
       else if negative then after == before + 1
       else if later then after > 0 && before > 0
       else after == 0
  }

  lemma MovesAtEnd(front: seq<Evaluation>, last: Evaluation, e: Evaluation)
    requires Ordered(front + [last], EvalKey) && !Before(EvalKey(e), EvalKey(last))
    ensures var evals, c := front + [last], e.seed.candidateId;
            Moves(e.net < 0, AnyLater(evals, e), AnyLaterPassing(evals, e), Trailing(evals, c), Trailing(evals + [e], c))
  {
    NoneLaterThanGreatest(front, last, e);
    TrailingSnoc(front + [last], e, e.seed.candidateId);
  }

  lemma MovesInside(front: seq<Evaluation>, last: Evaluation, e: Evaluation, r: seq<Evaluation>)
    requires Before(EvalKey(e), EvalKey(last))
    requires var c := e.seed.candidateId;
             Moves(e.net < 0, AnyLater(front, e), AnyLaterPassing(front, e), Trailing(front, c), Trailing(r, c))
    ensures var evals, c := front + [last], e.seed.candidateId;
            Moves(e.net < 0, AnyLater(evals, e), AnyLaterPassing(evals, e), Trailing(evals, c), Trailing(r + [last], c))
  {
    LaterSnoc(front, last, e);
    TrailingSnoc(front, last, e.seed.candidateId);
    TrailingSnoc(r, last, e.seed.candidateId);
  }

  lemma {:induction false} TrailingAfterInsert(evals: seq<Evaluation>, e: Evaluation)
    requires Ordered(evals, EvalKey)
    ensures var c := e.seed.candidateId;
            Moves(e.net < 0, AnyLater(evals, e), AnyLaterPassing(evals, e),
                  Trailing(evals, c), Trailing(Insert(evals, e, EvalKey), c))
  {
    if evals == [] {
      TrailingSnoc([], e, e.seed.candidateId);
    } else {
      var front, last := evals[..|evals| - 1], evals[|evals| - 1];
      assert evals == front + [last];
      InsertSnoc(front, last, e, EvalKey);
      if Before(EvalKey(e), EvalKey(last)) {
        TrailingAfterInsert(front, e);
        MovesInside(front, last, e, Insert(front, e, EvalKey));
      } else {
        MovesAtEnd(front, last, e);
      }
    }
  }

  /** After creating an evaluation the cached count is right exactly when the evaluation is in
      step; one that sorts after the candidate's earlier ones always is. */
  lemma CreatedStreakIff(evals: seq<Evaluation>, c: Candidate, e: Evaluation)
    requires Ordered(evals, EvalKey) && UniqueIds(evals, EvalKey) && EvalActionOf(evals, e) == Created
    requires e.seed.candidateId == c.id && c.streak == Trailing(evals, c.id)
    ensures var stored := Sort(Put(evals, e, EvalKey), EvalKey);
            StreakAfter(c, Created, e, stored) == Trailing(stored, c.id) <==> InStep(evals, e)
    ensures !AnyLater(evals, e) ==> InStep(evals, e)
  {
    SortSnoc(evals, e, EvalKey);
    SortOfOrdered(evals, EvalKey);
    TrailingAfterInsert(evals, e);
  }

  /** Out of order it can go wrong: a passing evaluation back-dated before a failing one resets
      the cached count although the last evaluation is negative. */
  lemma BackdatedPassResetsStreak(evals: seq<Evaluation>, c: Candidate, good: Evaluation)
    requires Ordered(evals, EvalKey) && UniqueIds(evals, EvalKey) && EvalActionOf(evals, good) == Created
    requires good.seed.candidateId == c.id && c.streak == Trailing(evals, c.id) && c.streak > 0
    requires good.net >= 0 && AnyLater(evals, good)
    ensures var stored := Sort(Put(evals, good, EvalKey), EvalKey);
            StreakAfter(c, Created, good, stored) == 0 && Trailing(stored, c.id) > 0
  {
    CreatedStreakIff(evals, c, good);
  }

  /** One such pair of evaluations. */
  lemma BackdatedPassExample(bad: Evaluation, good: Evaluation, c: Candidate)
    requires bad.id == 1 && bad.net == -1 && bad.at == 20 && good.id == 2 && good.net == 0 && good.at == 10
    requires bad.seed.candidateId == good.seed.candidateId == c.id && c.streak == 1
    ensures var stored := Sort(Put([bad], good, EvalKey), EvalKey);
            Trailing([bad], c.id) == 1 && StreakAfter(c, EvalActionOf([bad], good), good, stored) == 0
            && Trailing(stored, c.id) > 0
  {
  }

  // ----- an evaluation that takes the id of another ------------------------------------------

  /** Some evaluation of the candidate is not negative. */
  ghost predicate PassesIn(evals: seq<Evaluation>, candidateId: Id) {
    exists x :: x in evals && x.seed.candidateId == candidateId && x.net >= 0
  }

  lemma {:induction false} TrailingOfConcat(a: seq<Evaluation>, b: seq<Evaluation>, c: Id)
    ensures Trailing(a + b, c) == Trailing(b, c) + if PassesIn(b, c) then 0 else Trailing(a, c)
  {
    if b == [] {
      assert a + b == a;
    } else {
      var front, last := b[..|b| - 1], b[|b| - 1];
      assert b == front + [last] && a + b == (a + front) + [last];
      TrailingOfConcat(a, front, c);
      TrailingSnoc(a + front, last, c);
      TrailingSnoc(front, last, c);
      assert PassesIn(b, c) <==> PassesIn(front, c) || (last.seed.candidateId == c && last.net >= 0);
    }
  }

  /** What a caller can check before an evaluation goes: its candidate has a later one that is not
      negative, or it is not negative itself and none just before it is. */
  ghost predicate Spare(evals: seq<Evaluation>, k: nat)
    requires k < |evals|
  {
    var x := evals[k];
    PassesIn(evals[k + 1..], x.seed.candidateId)
    || (x.net >= 0 && Trailing(evals[..k], x.seed.candidateId) == 0)
  }

  lemma DroppedBetween(a: seq<Evaluation>, x: Evaluation, b: seq<Evaluation>)
    ensures var c := x.seed.candidateId;
            Trailing(a + b, c) == Trailing((a + [x]) + b, c) <==> PassesIn(b, c) || (x.net >= 0 && Trailing(a, c) == 0)
  {
    TrailingOfConcat(a, b, x.seed.candidateId);
    TrailingOfConcat(a + [x], b, x.seed.candidateId);
    TrailingSnoc(a, x, x.seed.candidateId);
  }

  /** Its candidate's count stays exactly when it is spare. */
  lemma DroppedStreakIff(evals: seq<Evaluation>, k: nat)
    requires k < |evals|
    ensures var c := evals[k].seed.candidateId;
            Trailing(evals[..k] + evals[k + 1..], c) == Trailing(evals, c) <==> Spare(evals, k)
  {
    DroppedBetween(evals[..k], evals[k], evals[k + 1..]);
    SplitAt(evals, k);
  }

  // ----- one stored evaluation -------------------------------------------------------------

  /** What a caller can check before an evaluation is stored: a created one is in step, and one that
      takes the place of another candidate's leaves that candidate's count alone. */
  ghost predicate StreakSafe(evals: seq<Evaluation>, e: Evaluation) {
    match EvalActionOf(evals, e)
    case Created => InStep(evals, e)
    case Updated =>
      var k := Find(evals, e.id, EvalKey);
      evals[k].seed.candidateId == e.seed.candidateId || Spare(evals, k)
    case Unchanged => true
  }

  /** An update keeps the candidate. */
  ghost predicate KeepsOwner(evals: seq<Evaluation>, e: Evaluation) {
    forall x | x in evals && x.id == e.id :: x.seed.candidateId == e.seed.candidateId
  }

  /** So it is enough that updates keep their candidate and that created evaluations come after the
      candidate's earlier ones. */
  lemma ChronologicalIsSafe(evals: seq<Evaluation>, e: Evaluation)
    requires KeepsOwner(evals, e) && (EvalActionOf(evals, e) == Created ==> !AnyLater(evals, e))
    ensures StreakSafe(evals, e)
  {
    if EvalActionOf(evals, e) == Updated {
      assert evals[Find(evals, e.id, EvalKey)] in evals;
    } else if EvalActionOf(evals, e) == Created {
      assert e.net < 0 ==> !AnyLaterPassing(evals, e);
    }
  }

  /** Derived ids keep their candidate. */
  lemma DerivedKeepsOwner(ids: IdScheme, m: Memory, q: EvalRequest)
    requires ids.Injective() && DerivedEvals(ids, m) && q.evalId == None
    ensures KeepsOwner(m.evals, Evaluate(ids, q))
  {
    forall x | x in m.evals && x.id == Evaluate(ids, q).id ensures x.seed.candidateId == q.candidateId {
      assert x.id == ids.eval(x.seed) && Evaluate(ids, q).id == ids.eval(Evaluate(ids, q).seed);
    }
  }

  lemma StoredIsOrdered(evals: seq<Evaluation>, e: Evaluation)
    requires UniqueIds(evals, EvalKey)
    ensures var stored := Sort(Put(evals, e, EvalKey), EvalKey);
            Ordered(stored, EvalKey) && forall x :: x in stored <==> x == e || (x in evals && x.id != e.id)
  {
    StoredMembers(evals, e);
    PutMembers(evals, e, EvalKey);
    SortKeepsMap(Put(evals, e, EvalKey), EvalKey);
  }

  lemma OtherStreakKept(evals: seq<Evaluation>, stored: seq<Evaluation>, e: Evaluation, other: Id)
    requires Ordered(evals, EvalKey) && UniqueIds(evals, EvalKey) && other != e.seed.candidateId
    requires Ordered(stored, EvalKey) && forall x :: x in stored <==> x == e || (x in evals && x.id != e.id)
    requires var k := Find(evals, e.id, EvalKey); k == -1 || evals[k].seed.candidateId != other
    ensures Trailing(stored, other) == Trailing(evals, other)
  {
    forall x: Evaluation | x.seed.candidateId == other ensures x in stored <==> x in evals {
      OnlyUnderItsId(evals, x, e.id);
    }
    TrailingDependsOnOwn(evals, stored, other);
  }

  lemma OtherStreakDropped(evals: seq<Evaluation>, stored: seq<Evaluation>, e: Evaluation, k: nat)
    requires Ordered(evals, EvalKey) && UniqueIds(evals, EvalKey)
    requires Ordered(stored, EvalKey) && forall x :: x in stored <==> x == e || (x in evals && x.id != e.id)
    requires k < |evals| && evals[k].id == e.id && evals[k].seed.candidateId != e.seed.candidateId
    ensures var other := evals[k].seed.candidateId; Trailing(stored, other) == Trailing(evals, other) <==> Spare(evals, k)
  {
    WithoutOne(evals, k);
    TrailingDependsOnOwn(evals[..k] + evals[k + 1..], stored, evals[k].seed.candidateId);
    DroppedStreakIff(evals, k);
  }

  /** Another candidate's count after the evaluation is stored. */
  lemma OtherStreakIff(evals: seq<Evaluation>, e: Evaluation, other: Id)
    requires Ordered(evals, EvalKey) && UniqueIds(evals, EvalKey) && other != e.seed.candidateId
    ensures var k := Find(evals, e.id, EvalKey);
            Trailing(Sort(Put(evals, e, EvalKey), EvalKey), other) == Trailing(evals, other) <==>
              k == -1 || evals[k].seed.candidateId != other || Spare(evals, k)
  {
    var stored, k := Sort(Put(evals, e, EvalKey), EvalKey), Find(evals, e.id, EvalKey);
    StoredIsOrdered(evals, e);
    if k == -1 || evals[k].seed.candidateId != other {
      OtherStreakKept(evals, stored, e, other);
    } else {
      OtherStreakDropped(evals, stored, e, k);
    }
  }

  lemma OnlyUnderItsId(evals: seq<Evaluation>, x: Evaluation, id: Id)
    requires UniqueIds(evals, EvalKey)
    ensures x in evals && x.id == id ==> var k := Find(evals, id, EvalKey); k != -1 && evals[k] == x
  {
    if x in evals && x.id == id {
      var k, i := Find(evals, id, EvalKey), 0;
      assert k != -1;
      i :| 0 <= i < |evals| && evals[i] == x;
      assert EvalKey(evals[i]).id == EvalKey(evals[k]).id;
    }
  }

  lemma WithoutOne(evals: seq<Evaluation>, k: nat)
    requires Ordered(evals, EvalKey) && UniqueIds(evals, EvalKey) && k < |evals|
    ensures var rest := evals[..k] + evals[k + 1..];
            Ordered(rest, EvalKey) && forall x :: x in rest <==> x in evals && x.id != evals[k].id
  {
    var rest := evals[..k] + evals[k + 1..];
    assert forall i | 0 <= i < |rest| :: rest[i] == evals[if i < k then i else i + 1];
    forall x ensures x in rest <==> x in evals && x.id != evals[k].id {
      WithoutMembers(evals, k, x);
    }
  }

  lemma WithoutMembers(evals: seq<Evaluation>, k: nat, x: Evaluation)
    requires UniqueIds(evals, EvalKey) && k < |evals|
    ensures x in evals[..k] + evals[k + 1..] <==> x in evals && x.id != evals[k].id
  {
    var rest := evals[..k] + evals[k + 1..];
    if x in rest {
      var i :| 0 <= i < |rest| && rest[i] == x;
      var j := if i < k then i else i + 1;
      assert evals[j] == x && EvalKey(evals[j]).id != EvalKey(evals[k]).id;
    }
    if x in evals && x.id != evals[k].id {
      var j :| 0 <= j < |evals| && evals[j] == x;
      assert rest[if j < k then j else j - 1] == x;
    }
  }

  // ----- runs ------------------------------------------------------------------------------

  ghost predicate StreaksExact(m: Memory) {
    && Keyed(m)
    && Ordered(m.evals, EvalKey) && UniqueIds(m.evals, EvalKey)
    && (forall e | e in m.evals :: e.seed.candidateId in m.cands)
    && (forall id | id in m.cands :: StreakExact(m, id))
  }

  predicate StreakExact(m: Memory, id: Id)
    requires id in m.cands
  {
    m.cands[id].streak == Trailing(m.evals, id)
  }

  lemma {:induction false} TrailingOfUnknown(evals: seq<Evaluation>, candidateId: Id)
    requires forall e | e in evals :: e.seed.candidateId != candidateId
    ensures Trailing(evals, candidateId) == 0
  {
    if evals != [] {
      assert evals[|evals| - 1] in evals;
      assert forall e | e in evals[..|evals| - 1] :: e in evals;
      TrailingOfUnknown(evals[..|evals| - 1], candidateId);
    }
  }

  /** Candidates keep their counts and none is lost; new ones start at zero. */
  ghost predicate StreaksKept(m: Memory, n: Memory) {
    && n.evals == m.evals && m.cands.Keys <= n.cands.Keys
    && (Keyed(m) ==> Keyed(n))
    && forall id | id in n.cands :: n.cands[id].streak == if id in m.cands then m.cands[id].streak else 0
  }

  lemma KeptStaysExact(m: Memory, n: Memory)
    requires StreaksExact(m) && StreaksKept(m, n)
    ensures StreaksExact(n)
  {
    forall id | id in n.cands ensures StreakExact(n, id) {
      if id in m.cands {
        assert StreakExact(m, id);
      } else {
        TrailingOfUnknown(m.evals, id);
      }
    }
  }

  lemma {:induction false} ShadowWriteKeepsStreaks(ids: IdScheme, m: Memory, batch: seq<WriteRequest>, at: Time)
    ensures StreaksKept(m, ShadowWrite(ids, m, batch, at).memory)
    decreases batch
  {
    if batch != [] && WriteError(batch[0]).None? {
      ShadowWriteKeepsStreaks(ids, WriteOne(m, NormalizeShadowCandidate(ids, batch[0]), at), batch[1..], at);
    }
  }

  lemma {:induction false} OverrideKeepsStreaks(m: Memory, targets: seq<Id>, at: Time)
    ensures StreaksKept(m, OverrideEach(m, targets, at))
  {
    if targets != [] {
      OverrideKeepsStreaks(m, targets[..|targets| - 1], at);
    }
  }

  /** The evaluated candidate's own count: recounted after an update, kept after a replay. */
  lemma OwnStreakIff(evals: seq<Evaluation>, c: Candidate, e: Evaluation)
    requires Ordered(evals, EvalKey) && UniqueIds(evals, EvalKey)
    requires e.seed.candidateId == c.id && c.streak == Trailing(evals, c.id)
    ensures var stored, action := Sort(Put(evals, e, EvalKey), EvalKey), EvalActionOf(evals, e);
            StreakAfter(c, action, e, stored) == Trailing(stored, c.id) <==> action == Created ==> InStep(evals, e)
  {
    match EvalActionOf(evals, e)
    case Created => CreatedStreakIff(evals, c, e);
    case Updated =>
    case Unchanged => StoreAgain(evals, e, EvalKey);
  }

  /** Which counts are exact once an evaluation is stored. */
  lemma RecordStreakIff(m: Memory, e: Evaluation, id: Id)
    requires StreaksExact(m) && e.seed.candidateId in m.cands && id in m.cands
    ensures var k := Find(m.evals, e.id, EvalKey);
            StreakExact(Record(m, e), id) <==>
              if id == e.seed.candidateId then EvalActionOf(m.evals, e) == Created ==> InStep(m.evals, e)
              else k == -1 || m.evals[k].seed.candidateId != id || Spare(m.evals, k)
  {
    assert StreakExact(m, id);
    if id == e.seed.candidateId {
      OwnStreakIff(m.evals, m.cands[id], e);
    } else {
      OtherStreakIff(m.evals, e, id);
    }
  }

  lemma RecordShapeExact(m: Memory, e: Evaluation)
    requires StreaksExact(m) && e.seed.candidateId in m.cands
    ensures var n := Record(m, e);
            && Keyed(n) && n.cands.Keys == m.cands.Keys
            && Ordered(n.evals, EvalKey) && UniqueIds(n.evals, EvalKey)
            && forall x | x in n.evals :: x.seed.candidateId in n.cands
  {
    StoredMembers(m.evals, e);
    StoredIsOrdered(m.evals, e);
  }

  /** Storing an evaluation keeps every count right exactly when that is safe. */
  lemma RecordKeepsStreaksIff(m: Memory, e: Evaluation)
    requires StreaksExact(m) && e.seed.candidateId in m.cands
    ensures StreaksExact(Record(m, e)) <==> StreakSafe(m.evals, e)
  {
    var n, k := Record(m, e), Find(m.evals, e.id, EvalKey);
    RecordShapeExact(m, e);
    if StreakSafe(m.evals, e) {
      forall id | id in n.cands ensures StreakExact(n, id) {
        RecordStreakIff(m, e, id);
      }
    }
    if StreaksExact(n) {
      RecordStreakIff(m, e, e.seed.candidateId);
      if k != -1 {
        assert m.evals[k] in m.evals;
        assert StreakExact(n, m.evals[k].seed.candidateId);
        RecordStreakIff(m, e, m.evals[k].seed.candidateId);
      }
    }
  }

  ghost predicate StepInOrder(ids: IdScheme, m: Memory, op: Op) {
    op.OpReplayEval? && op.request.candidateId in m.cands ==> StreakSafe(m.evals, Evaluate(ids, op.request))
  }

  /** Every evaluation of the run is safe when it comes. */
  ghost predicate RunInOrder(ids: IdScheme, ops: seq<Op>) {
    ops == [] ||
    (RunInOrder(ids, ops[..|ops| - 1]) && StepInOrder(ids, Run(ids, ops[..|ops| - 1]), ops[|ops| - 1]))
  }

  lemma DemoteAllKeepsStreaks(m: Memory, targets: set<Id>, at: Time, reasons: set<string>)
    ensures StreaksKept(m, DemoteAll(m, targets, at, reasons)) && StreaksKept(DemoteAll(m, targets, at, reasons), m)
  {
    var n := DemoteAll(m, targets, at, reasons);
    assert forall id | id in m.cands :: n.cands[id].id == m.cands[id].id;
  }

  lemma ReplayEvalKeepsStreaksIff(ids: IdScheme, m: Memory, q: EvalRequest)
    requires StreaksExact(m)
    ensures StreaksExact(ReplayEval(ids, m, q).memory) <==> StepInOrder(ids, m, OpReplayEval(q))
  {
    if q.candidateId in m.cands {
      var recorded, n := Record(m, Evaluate(ids, q)), ReplayEval(ids, m, q).memory;
      RecordKeepsStreaksIff(m, Evaluate(ids, q));
      DemoteAllKeepsStreaks(recorded, {q.candidateId}, q.at, {"sustained_negative_net_value"});
      if n != recorded {
        if StreaksExact(recorded) {
          KeptStaysExact(recorded, n);
        }
        if StreaksExact(n) {
          KeptStaysExact(n, recorded);
        }
      }
    }
  }

  lemma FeedbackKeepsStreaks(m: Memory, f: FeedbackRecord)
    ensures StreaksKept(m, Feedback(m, f).memory)
  {
    var stored := m.(feedback := m.feedback[f.id := f]);
    var ruleIds, candidateIds := AsList(f.ruleId), AsList(f.candidateId);
    var signalled := ApplyUtility(stored, ruleIds, candidateIds, f.id, if f.harmful then -0.18 else 0.12, f.at);
    assert StreaksKept(m, signalled);
  }

  lemma WeighedKeepsStreaks(m: Memory, adjustmentId: Id, p: Adjustment)
    requires p.candidateId in m.cands
    ensures StreaksKept(m, Weighed(m, adjustmentId, p))
  {
  }

  lemma AddWeightKeepsStreaks(ids: IdScheme, m: Memory, givenId: Option<Id>, request: Adjustment)
    ensures StreaksKept(m, AddWeight(ids, m, givenId, request).memory)
  {
    AddWeightCases(ids, m, givenId, request);
    if Wrote(AddWeight(ids, m, givenId, request).verdict) {
      WeighedKeepsStreaks(m, AdjustmentId(ids, givenId, request), Normalized(request));
    }
  }

  lemma PromoteKeepsStreaks(m: Memory, id: Id, at: Time, window: int)
    ensures StreaksKept(m, Promote(m, id, at, window).memory)
  {
  }

  lemma DemoteKeepsStreaks(m: Memory, id: Id, at: Time, threshold: int, force: bool, reasons: set<string>)
    ensures StreaksKept(m, Demote(m, id, at, threshold, force, reasons).memory)
  {
    if id in m.cands {
      DemoteAllKeepsStreaks(m, {id}, at, DemoteReasons(m.cands[id], threshold, force, reasons));
    }
  }

  lemma OutcomeKeepsStreaks(m: Memory, o: OutcomeRecord)
    ensures StreaksKept(m, Outcome(m, o).memory)
  {
  }

  lemma TickKeepsStreaks(m: Memory, at: Time)
    ensures StreaksKept(m, Tick(m, at))
  {
  }

  lemma QuarantineKeepsStreaks(m: Memory, ruleIds: seq<Id>, candidateIds: seq<Id>, at: Time, reasons: set<string>)
    ensures StreaksKept(m, Quarantine(m, ruleIds, candidateIds, at, reasons))
  {
    DemoteAllKeepsStreaks(m, Targets(m, ruleIds, candidateIds), at, reasons);
  }

  lemma CurateKeepsStreaks(m: Memory, winners: seq<Winner>, at: Time)
    ensures StreaksKept(m, Curate(m, winners, at))
  {
  }

  lemma StepKeepsStreaks(ids: IdScheme, m: Memory, op: Op)
    requires !op.OpReplayEval?
    ensures StreaksKept(m, Step(ids, m, op).memory)
  {
    match op
    case OpShadowWrite(batch, at) => ShadowWriteKeepsStreaks(ids, m, batch, at);
    case OpPromote(id, at, window) => PromoteKeepsStreaks(m, id, at, window);
    case OpDemote(id, at, threshold, force, reasons) => DemoteKeepsStreaks(m, id, at, threshold, force, reasons);
    case OpAddWeight(adjustmentId, p) => AddWeightKeepsStreaks(ids, m, adjustmentId, p);
    case OpQuarantine(rs, cs, at, reasons) => QuarantineKeepsStreaks(m, rs, cs, at, reasons);
    case OpOverride(rs, cs, at) => OverrideKeepsStreaks(m, Listed(Targets(m, rs, cs)), at);
    case OpFeedback(f) => FeedbackKeepsStreaks(m, f);
    case OpOutcome(o) => OutcomeKeepsStreaks(m, o);
    case OpCurate(winners, at) => CurateKeepsStreaks(m, winners, at);
    case OpTick(at) => TickKeepsStreaks(m, at);
    case OpAudit(_, _, _, _, _, _) =>
  }

  /** An operation keeps every cached streak right exactly when it stores no unsafe evaluation. */
  lemma StepKeepsStreaksIff(ids: IdScheme, m: Memory, op: Op)
    requires StreaksExact(m)
    ensures StreaksExact(Step(ids, m, op).memory) <==> StepInOrder(ids, m, op)
  {
    if op.OpReplayEval? {
      ReplayEvalKeepsStreaksIff(ids, m, op.request);
    } else {
      StepKeepsStreaks(ids, m, op);
      KeptStaysExact(m, Step(ids, m, op).memory);
    }
  }

  /** In every state reached in order, under derived and supplied ids alike, each cached streak is the
      count recomputed from the sorted evaluations. */
  lemma {:induction false} RunStreaksExact(ids: IdScheme, ops: seq<Op>)
    requires RunInOrder(ids, ops)
    ensures StreaksExact(Run(ids, ops))
  {
    if ops != [] {
      RunStreaksExact(ids, ops[..|ops| - 1]);
      StepKeepsStreaksIff(ids, Run(ids, ops[..|ops| - 1]), ops[|ops| - 1]);
    }
  }

  /** Two candidates and one evaluation id: the second evaluation takes the place of the first, and
      the first candidate keeps a count of one with no evaluation left. */
  lemma TakenIdExample(ids: IdScheme, w: WriteRequest, v: WriteRequest, q: EvalRequest, p: EvalRequest, at: Time)
    requires WriteError(w).None? && WriteError(v).None?
    requires var a, b := NormalizeShadowCandidate(ids, w).id, NormalizeShadowCandidate(ids, v).id;
             a != b && q.candidateId == a && p.candidateId == b
    requires q.evalId.Some? && p.evalId == q.evalId && Evaluate(ids, q).net < 0
    ensures var m := Run(ids, [OpShadowWrite([w], at)] + [OpShadowWrite([v], at)] + [OpReplayEval(q)] + [OpReplayEval(p)]);
            && q.candidateId in m.cands && m.cands[q.candidateId].streak == 1 && Trailing(m.evals, q.candidateId) == 0
            && !StreaksExact(m)
  {
    var a, b := NormalizeShadowCandidate(ids, w), NormalizeShadowCandidate(ids, v);
    var two := [OpShadowWrite([w], at)] + [OpShadowWrite([v], at)];
    WriteFirst(ids, w, at);
    RunSnoc(ids, [OpShadowWrite([w], at)], OpShadowWrite([v], at));
    WriteOnly(ids, Run(ids, [OpShadowWrite([w], at)]), v, at);
    var m, e, f := Run(ids, two), Evaluate(ids, q), Evaluate(ids, p);
    RunSnoc(ids, two, OpReplayEval(q));
    RunSnoc(ids, two + [OpReplayEval(q)], OpReplayEval(p));
    StoreFirst(m, e);
    var n := ReplayEval(ids, m, q).memory;
    assert n == Record(m, e);
    StoreInPlace(n, e, f);
    assert ReplayEval(ids, n, p).memory == Record(n, f);
    assert Record(n, f).cands[a.id] == n.cands[a.id];
  }

  lemma StoreFirst(m: Memory, e: Evaluation)
    requires m.evals == [] && e.seed.candidateId in m.cands && m.cands[e.seed.candidateId].streak == 0
    ensures var n := Record(m, e);
            && EvalActionOf(m.evals, e) == Created && n.evals == [e] && n.cands.Keys == m.cands.Keys
            && n.cands[e.seed.candidateId].streak == if e.net < 0 then 1 else 0
  {
    assert Put([], e, EvalKey) == [e];
    assert Sort([e], EvalKey) == [e] by { assert [e][..0] == []; }
  }

  lemma StoreInPlace(m: Memory, e: Evaluation, f: Evaluation)
    requires m.evals == [e] && f.id == e.id && f.seed.candidateId in m.cands && f.seed.candidateId != e.seed.candidateId
    ensures var n := Record(m, f);
            && n.evals == [f] && Trailing(n.evals, e.seed.candidateId) == 0
            && n.cands[f.seed.candidateId].streak <= 1
  {
    assert EvalActionOf([e], f) == Updated;
    OneInPlace(e, f);
    TrailingOfOne(f, e.seed.candidateId);
    TrailingOfOne(f, m.cands[f.seed.candidateId].id);
  }

  /** An evaluation that is not a replay and brings the count to two leaves the candidate demoted and
      no rule under its rule id unless it was demoted before; while candidates and rules are linked,
      no rule promoted from it is left either. */
  lemma SustainedNegativeDemotes(ids: IdScheme, m: Memory, q: EvalRequest)
    requires Keyed(m) && q.candidateId in m.cands
    requires EvalActionOf(m.evals, Evaluate(ids, q)) != Unchanged
    requires Record(m, Evaluate(ids, q)).cands[q.candidateId].streak >= DEMOTION_STREAK
    ensures var n := ReplayEval(ids, m, q).memory;
            && n.cands[q.candidateId].status == Demoted
            && (m.cands[q.candidateId].status != Demoted ==> !HasRule(n.rules, m.cands[q.candidateId].ruleId))
            && (Linked(m) ==> forall r | r in n.rules && r.origin.PromotedFrom? :: r.origin.candidateId != q.candidateId)
  {
    var recorded := Record(m, Evaluate(ids, q));
    RecordShape(m, Evaluate(ids, q));
    var n := ReplayEval(ids, m, q).memory;
    assert n == DemoteAll(recorded, {q.candidateId}, q.at, {"sustained_negative_net_value"});
    if Linked(m) {
      ReplayEvalKeepsLinks(ids, m, q);
      forall r | r in n.rules && r.origin.PromotedFrom? ensures r.origin.candidateId != q.candidateId {
        assert BelongsToPromoted(n, r);
      }
    }
  }
}
