/** The ranking weight tuner of scripts/generate-ranking-decay-tuning.ts: a bounded normalisation
    that rescales and clips until nothing moves, over exact real numbers. */
module RankingWeights {
  import opened Numbers
  import Timeline

  datatype Key = Recency | SemanticSimilarity | Reliability | PolicySafety
  type Table = map<Key, real>

  const ORDER: seq<Key> := [Recency, SemanticSimilarity, Reliability, PolicySafety]
  const LOW := 0.05
  const HIGH := 0.7
  const NONE: Table := map[]
  const EPSILON := 0.000000000001

  predicate Total(w: Table) {
    forall k: Key :: k in w
  }

  function Pos(x: real): real { MaxReal(0.0, x) }

  predicate TooLow(x: real) { x < LOW - EPSILON }
  predicate TooHigh(x: real) { x > HIGH + EPSILON }
  predicate InRange(x: real) { !TooLow(x) && !TooHigh(x) }

  function Sum(w: Table): real
    requires Total(w)
  {
    w[Recency] + w[SemanticSimilarity] + w[Reliability] + w[PolicySafety]
  }

  // ----- one pass --------------------------------------------------------------------------

  function FixedPart(fixed: Table, k: Key): real { if k in fixed then fixed[k] else 0.0 }

  function FixedSum(fixed: Table): real {
    FixedPart(fixed, Recency) + FixedPart(fixed, SemanticSimilarity) + FixedPart(fixed, Reliability) + FixedPart(fixed, PolicySafety)
  }

  function Remaining(fixed: Table): real { MaxReal(0.0, 1.0 - FixedSum(fixed)) }

  function FreePart(w: Table, fixed: Table, k: Key): real
    requires Total(w)
  {
    if k in fixed then 0.0 else Pos(w[k])
  }

  function FreeSum(w: Table, fixed: Table): real
    requires Total(w)
  {
    FreePart(w, fixed, Recency) + FreePart(w, fixed, SemanticSimilarity) + FreePart(w, fixed, Reliability) + FreePart(w, fixed, PolicySafety)
  }

  function One(fixed: Table, k: Key): nat { if k in fixed then 0 else 1 }

  function FreeCount(fixed: Table): nat {
    One(fixed, Recency) + One(fixed, SemanticSimilarity) + One(fixed, Reliability) + One(fixed, PolicySafety)
  }

  function Ratio(x: real, y: real): real
    requires y > 0.0
  {
    x / y
  }

  function ShareOut(remaining: real, raw: real, denominator: real): real
    requires denominator > 0.0
  {
    remaining * raw / denominator
  }

  /** What a free key gets of the remaining weight. */
  function Portion(w: Table, fixed: Table, k: Key): real
    requires Total(w) && k !in fixed
  {
    assert One(fixed, k) == 1 && (k == Recency || k == SemanticSimilarity || k == Reliability || k == PolicySafety);
    if FreeSum(w, fixed) > 0.0 then ShareOut(Remaining(fixed), Pos(w[k]), FreeSum(w, fixed))
    else ShareOut(Remaining(fixed), 1.0, FreeCount(fixed) as real)
  }

  function Rescaled(w: Table, fixed: Table): (r: Table)
    requires Total(w)
    ensures Total(r)
  {
    map k | k in w :: if k in fixed then w[k] else Portion(w, fixed, k)
  }

  function Clip(x: real): real { if TooLow(x) then LOW else if TooHigh(x) then HIGH else x }

  /** The keys a pass fixes, at the bound they overstepped. */
  function NewlyFixed(w: Table, fixed: Table): Table {
    map k | k in w && k !in fixed && !InRange(w[k]) :: Clip(w[k])
  }

  function Clipped(w: Table, fixed: Table): (r: Table)
    ensures Total(w) ==> Total(r)
  {
    map k | k in w :: if k in fixed then w[k] else Clip(w[k])
  }

  // ----- what the passes keep --------------------------------------------------------------

  /** A raw weight as the algorithm counts it: its positive part. */
  function Base(raw: Table, k: Key): real
    requires Total(raw)
  {
    Pos(raw[k])
  }

  function Share(raw: Table, k: Key): real
    requires Total(raw)
  {
    if FreeSum(raw, NONE) > 0.0 then Ratio(Base(raw, k), FreeSum(raw, NONE)) else 0.25
  }

  predicate HighShare(raw: Table)
    requires Total(raw)
  {
    exists k: Key :: TooHigh(Share(raw, k))
  }

  /** One share above the upper bound and the other three below the lower one. */
  predicate Exceptional(raw: Table)
    requires Total(raw)
  {
    HighShare(raw) && forall k: Key :: !InRange(Share(raw, k))
  }

  predicate AllFixed(fixed: Table) { forall k: Key :: k in fixed }

  /** Keys are fixed at a bound, at most one of them at the upper. */
  predicate AtBounds(w: Table, fixed: Table)
    requires Total(w)
  {
    && (forall k: Key | k in fixed :: w[k] == fixed[k] && (fixed[k] == LOW || fixed[k] == HIGH))
    && (forall i: Key, j: Key | i in fixed && j in fixed && fixed[i] == HIGH && fixed[j] == HIGH :: i == j)
  }

  /** Free keys keep the raw proportions and the raw order, and lie above the keys fixed low. */
  predicate InProportion(raw: Table, w: Table, fixed: Table)
    requires Total(raw) && Total(w)
  {
    && (forall i: Key, j: Key | i !in fixed && j !in fixed ::
          Times(Pos(w[i]), Base(raw, j)) == Times(Pos(w[j]), Base(raw, i))
          && (Base(raw, i) <= Base(raw, j) ==> Pos(w[i]) <= Pos(w[j])))
    && (forall i: Key, j: Key | i !in fixed && j in fixed && fixed[j] == LOW :: Base(raw, j) < Base(raw, i))
  }

  /** A key is fixed low because its share is low beside a high one, or because at the scale of any
      free key it would be below the bound. */
  predicate LowForCause(raw: Table, w: Table, fixed: Table)
    requires Total(raw) && Total(w)
  {
    forall i: Key, j: Key | i in fixed && fixed[i] == LOW && j !in fixed
        && !(HighShare(raw) && TooLow(Share(raw, i))) ::
      Times(w[j], Base(raw, i)) <= Times(LOW, Base(raw, j))
  }

  /** Further passes scale down, except for the one just after a high share was cut. */
  predicate Shrinking(raw: Table, w: Table, fixed: Table)
    requires Total(raw) && Total(w)
  {
    FreeSum(w, fixed) >= Remaining(fixed)
    || (HighShare(raw) && forall i: Key | i in fixed && fixed[i] == LOW :: TooLow(Share(raw, i)))
  }

  /** The state between passes once one pass has been made. */
  predicate Underway(raw: Table, w: Table, fixed: Table)
    requires Total(raw) && Total(w)
  {
    && AtBounds(w, fixed)
    && (forall k: Key | k !in fixed :: InRange(w[k]))
    && (AllFixed(fixed) <==> Exceptional(raw))
    && (forall k: Key | k in fixed && fixed[k] == HIGH :: TooHigh(Share(raw, k)))
    && (forall k: Key | TooHigh(Share(raw, k)) :: k in fixed && fixed[k] == HIGH)
    && (forall k: Key | TooLow(Share(raw, k)) :: k in fixed && fixed[k] == LOW)
    && InProportion(raw, w, fixed)
    && LowForCause(raw, w, fixed)
    && Shrinking(raw, w, fixed)
  }

  // ----- rescaling -------------------------------------------------------------------------

  lemma KeyCases(k: Key)
    ensures k == Recency || k == SemanticSimilarity || k == Reliability || k == PolicySafety
  {
  }

  lemma AddFourProducts(q: real, a: real, b: real, c: real, d: real)
    ensures Times(q, a) + Times(q, b) + Times(q, c) + Times(q, d) == Times(q, a + b + c + d)
  {
  }

  lemma Regroup(r: real, p: real, d: real)
    requires d > 0.0 && r >= 0.0 && p >= 0.0
    ensures ShareOut(r, p, d) == Times(Ratio(r, d), p) >= 0.0
  {
    assert r / d >= 0.0;
    assert r * p / d == (r / d) * p;
  }

  lemma Quotient(r: real, d: real)
    requires d > 0.0 && r >= 0.0
    ensures Ratio(r, d) >= 0.0 && Times(Ratio(r, d), d) == r
  {
  }

  /** The common factor of a pass. */
  ghost function Factor(w: Table, fixed: Table): (q: real)
    requires Total(w)
    ensures q >= 0.0
    ensures FreeSum(w, fixed) > 0.0 ==> Times(q, FreeSum(w, fixed)) == Remaining(fixed)
  {
    if FreeSum(w, fixed) > 0.0 then
      Quotient(Remaining(fixed), FreeSum(w, fixed));
      Ratio(Remaining(fixed), FreeSum(w, fixed))
    else 0.0
  }

  lemma PortionIsScaled(w: Table, fixed: Table, k: Key)
    requires Total(w) && k !in fixed && FreeSum(w, fixed) > 0.0
    ensures Rescaled(w, fixed)[k] == Times(Factor(w, fixed), Pos(w[k])) >= 0.0
  {
    Regroup(Remaining(fixed), Pos(w[k]), FreeSum(w, fixed));
  }

  lemma ScaledSum(w: Table, fixed: Table)
    requires Total(w) && FreeSum(w, fixed) > 0.0
    ensures FreeSum(Rescaled(w, fixed), fixed) == Remaining(fixed)
  {
    var q := Factor(w, fixed);
    forall k: Key ensures FreePart(Rescaled(w, fixed), fixed, k) == Times(q, FreePart(w, fixed, k)) {
      if k !in fixed {
        PortionIsScaled(w, fixed, k);
      } else {
        TimesUnit(q, 0.0);
      }
    }
    AddFourProducts(q, FreePart(w, fixed, Recency), FreePart(w, fixed, SemanticSimilarity),
                    FreePart(w, fixed, Reliability), FreePart(w, fixed, PolicySafety));
  }

  lemma FreePartBelowSum(w: Table, fixed: Table, k: Key)
    requires Total(w)
    ensures 0.0 <= FreePart(w, fixed, k) <= FreeSum(w, fixed)
  {
  }

  /** A pass shares out what remains, in proportion to the current weights. */
  lemma RescaledSum(w: Table, fixed: Table)
    requires Total(w) && !AllFixed(fixed)
    ensures FreeSum(Rescaled(w, fixed), fixed) == Remaining(fixed)
  {
    if FreeSum(w, fixed) > 0.0 {
      ScaledSum(w, fixed);
    } else {
      var n, r := FreeCount(fixed), Remaining(fixed);
      var k: Key :| k !in fixed;
      KeyCases(k);
      assert n > 0;
      EvenSplit(r, n);
      forall k: Key ensures FreePart(Rescaled(w, fixed), fixed, k) == One(fixed, k) as real * Ratio(r, n as real) {
      }
    }
  }

  lemma EvenSplit(r: real, n: nat)
    requires n > 0 && r >= 0.0
    ensures n as real * Ratio(r, n as real) == r && ShareOut(r, 1.0, n as real) == Ratio(r, n as real) >= 0.0
  {
  }

  /** A pass that has no more to give than it takes raises nothing. */
  lemma ShrinksWhenShort(w: Table, fixed: Table, k: Key)
    requires Total(w) && k !in fixed && FreeSum(w, fixed) >= Remaining(fixed) && FreeSum(w, fixed) > 0.0
    ensures Rescaled(w, fixed)[k] <= Pos(w[k])
  {
    PortionIsScaled(w, fixed, k);
    var q := Factor(w, fixed);
    TimesUnit(q, Pos(w[k]));
    TimesUnit(1.0, FreeSum(w, fixed));
    if q > 1.0 {
      AboveOne(q, FreeSum(w, fixed));
      assert false;
    }
    TimesMonotone(q, 1.0, Pos(w[k]));
  }

  lemma AboveOne(q: real, x: real)
    requires q > 1.0 && x > 0.0
    ensures Times(q, x) > x
  {
  }

  /** Rescaling keeps the proportions and the order of the raw weights. */
  lemma RescaledInProportion(raw: Table, w: Table, fixed: Table)
    requires Total(raw) && Total(w) && InProportion(raw, w, fixed) && FreeSum(w, fixed) > 0.0
    ensures InProportion(raw, Rescaled(w, fixed), fixed)
  {
    var q := Factor(w, fixed);
    forall i: Key, j: Key | i !in fixed && j !in fixed
      ensures var r := Rescaled(w, fixed);
              Times(Pos(r[i]), Base(raw, j)) == Times(Pos(r[j]), Base(raw, i))
              && (Base(raw, i) <= Base(raw, j) ==> Pos(r[i]) <= Pos(r[j]))
    {
      PortionIsScaled(w, fixed, i);
      PortionIsScaled(w, fixed, j);
      TimesAssociates(q, Pos(w[i]), Base(raw, j));
      TimesAssociates(q, Pos(w[j]), Base(raw, i));
      if Base(raw, i) <= Base(raw, j) {
        TimesMonotone(Pos(w[i]), Pos(w[j]), q);
        TimesUnit(q, Pos(w[i]));
        TimesUnit(q, Pos(w[j]));
      }
    }
  }

  // ----- a pass ----------------------------------------------------------------------------

  /** The fixed keys after a pass over rescaled weights. */
  function Grown(r: Table, fixed: Table): Table { fixed + NewlyFixed(r, fixed) }

  /** What clipping needs of the rescaled weights. Only the first pass can clip at the upper bound. */
  predicate ReadyToClip(raw: Table, r: Table, fixed: Table)
    requires Total(raw) && Total(r)
  {
    && AtBounds(r, fixed)
    && (forall k: Key | k !in fixed :: r[k] >= 0.0)
    && (forall k: Key | k in fixed && fixed[k] == HIGH :: TooHigh(Share(raw, k)))
    && ((forall k: Key | k !in fixed :: !TooHigh(r[k])) || (fixed == NONE && forall k: Key :: r[k] == Share(raw, k)))
    && (forall k: Key | TooHigh(Share(raw, k)) :: if k in fixed then fixed[k] == HIGH else TooHigh(r[k]))
    && (forall k: Key | TooLow(Share(raw, k)) :: if k in fixed then fixed[k] == LOW else TooLow(r[k]))
    && InProportion(raw, r, fixed)
    && LowForCause(raw, r, fixed)
    && FreeSum(r, fixed) == Remaining(fixed)
  }

  lemma SharesAreRescaled(raw: Table, k: Key)
    requires Total(raw)
    ensures Rescaled(raw, NONE)[k] == Share(raw, k) >= 0.0
  {
    if FreeSum(raw, NONE) > 0.0 {
      PortionIsScaled(raw, NONE, k);
      Regroup(1.0, Base(raw, k), FreeSum(raw, NONE));
      assert ShareOut(1.0, Base(raw, k), FreeSum(raw, NONE)) == Ratio(Base(raw, k), FreeSum(raw, NONE));
    } else {
      assert ShareOut(1.0, 1.0, 4.0) == 0.25;
    }
  }

  lemma SharesSumToOne(raw: Table)
    requires Total(raw)
    ensures Share(raw, Recency) + Share(raw, SemanticSimilarity) + Share(raw, Reliability) + Share(raw, PolicySafety) == 1.0
    ensures forall k: Key :: Share(raw, k) >= 0.0
    ensures exists k: Key :: !TooLow(Share(raw, k))
  {
    assert !AllFixed(NONE) by { assert Recency !in NONE; }
    RescaledSum(raw, NONE);
    forall k: Key ensures FreePart(Rescaled(raw, NONE), NONE, k) == Share(raw, k) >= 0.0 {
      SharesAreRescaled(raw, k);
    }
    assert !TooLow(Share(raw, Recency)) || !TooLow(Share(raw, SemanticSimilarity))
           || !TooLow(Share(raw, Reliability)) || !TooLow(Share(raw, PolicySafety));
  }

  lemma FirstRescaling(raw: Table)
    requires Total(raw)
    ensures ReadyToClip(raw, Rescaled(raw, NONE), NONE)
  {
    forall k: Key ensures Rescaled(raw, NONE)[k] == Share(raw, k) >= 0.0 {
      SharesAreRescaled(raw, k);
    }
    assert !AllFixed(NONE) by { assert Recency !in NONE; }
    RescaledSum(raw, NONE);
    if FreeSum(raw, NONE) > 0.0 {
      assert InProportion(raw, raw, NONE) by {
        forall i: Key, j: Key ensures Times(Base(raw, i), Base(raw, j)) == Times(Base(raw, j), Base(raw, i)) {
          TimesUnit(Base(raw, i), Base(raw, j));
        }
      }
      RescaledInProportion(raw, raw, NONE);
    } else {
      forall k: Key ensures Base(raw, k) == 0.0 {
        FreePartBelowSum(raw, NONE, k);
      }
      forall k: Key ensures Times(Pos(Rescaled(raw, NONE)[k]), 0.0) == 0.0 {
        TimesUnit(Pos(Rescaled(raw, NONE)[k]), 0.0);
      }
    }
  }

  lemma FixedSumBound(w: Table, fixed: Table)
    requires Total(w) && AtBounds(w, fixed)
    ensures Remaining(fixed) == 1.0 - FixedSum(fixed)
    ensures !AllFixed(fixed) ==> Remaining(fixed) >= 0.15 + 0.05 * FreeCount(fixed) as real
    ensures (exists k: Key :: k in fixed && fixed[k] == HIGH) ==> Remaining(fixed) <= 0.3
  {
  }

  lemma FreeSumIsPositive(w: Table, fixed: Table)
    requires Total(w) && !AllFixed(fixed) && forall k: Key | k !in fixed :: InRange(w[k])
    ensures FreeSum(w, fixed) > 0.0
  {
    var k: Key :| k !in fixed;
    FreePartBelowSum(w, fixed, k);
  }

  lemma LaterRescalingIsNotHigh(raw: Table, w: Table, fixed: Table, k: Key)
    requires Total(raw) && Total(w) && Underway(raw, w, fixed) && k !in fixed
    ensures 0.0 <= Rescaled(w, fixed)[k] && !TooHigh(Rescaled(w, fixed)[k])
  {
    FreeSumIsPositive(w, fixed);
    PortionIsScaled(w, fixed, k);
    if FreeSum(w, fixed) >= Remaining(fixed) {
      ShrinksWhenShort(w, fixed, k);
    } else {
      FixedSumBound(w, fixed);
      ScaledSum(w, fixed);
      FreePartBelowSum(Rescaled(w, fixed), fixed, k);
    }
  }

  lemma LaterRescalingKeepsCause(raw: Table, w: Table, fixed: Table)
    requires Total(raw) && Total(w) && Underway(raw, w, fixed)
    ensures LowForCause(raw, Rescaled(w, fixed), fixed)
  {
    var r := Rescaled(w, fixed);
    forall i: Key, j: Key | i in fixed && fixed[i] == LOW && j !in fixed && !(HighShare(raw) && TooLow(Share(raw, i)))
      ensures Times(r[j], Base(raw, i)) <= Times(LOW, Base(raw, j))
    {
      FreeSumIsPositive(w, fixed);
      ShrinksWhenShort(w, fixed, j);
      TimesMonotone(r[j], w[j], Base(raw, i));
    }
  }

  lemma LaterRescaling(raw: Table, w: Table, fixed: Table)
    requires Total(raw) && Total(w) && Underway(raw, w, fixed) && !AllFixed(fixed)
    ensures ReadyToClip(raw, Rescaled(w, fixed), fixed)
  {
    forall k: Key | k !in fixed ensures 0.0 <= Rescaled(w, fixed)[k] && !TooHigh(Rescaled(w, fixed)[k]) {
      LaterRescalingIsNotHigh(raw, w, fixed, k);
    }
    FreeSumIsPositive(w, fixed);
    RescaledInProportion(raw, w, fixed);
    LaterRescalingKeepsCause(raw, w, fixed);
    RescaledSum(w, fixed);
  }

  // ----- clipping --------------------------------------------------------------------------

  lemma ClippingKeepsBounds(raw: Table, r: Table, fixed: Table)
    requires Total(raw) && Total(r) && ReadyToClip(raw, r, fixed)
    ensures AtBounds(Clipped(r, fixed), Grown(r, fixed))
  {
    var grown := Grown(r, fixed);
    forall i: Key, j: Key | i in grown && j in grown && grown[i] == HIGH && grown[j] == HIGH ensures i == j {
      if i != j {
        SharesSumToOne(raw);
        assert TooHigh(Share(raw, i)) && TooHigh(Share(raw, j));
        KeyCases(i);
        KeyCases(j);
        assert false;
      }
    }
  }

  /** What clipping does to one key. */
  lemma ClippedKey(r: Table, fixed: Table, k: Key)
    requires Total(r)
    ensures k in fixed ==> k in Grown(r, fixed) && Grown(r, fixed)[k] == fixed[k] && Clipped(r, fixed)[k] == r[k]
    ensures k !in fixed && InRange(r[k]) ==> k !in Grown(r, fixed) && Clipped(r, fixed)[k] == r[k]
    ensures k !in fixed && !InRange(r[k]) ==>
              k in Grown(r, fixed) && Grown(r, fixed)[k] == Clipped(r, fixed)[k] == if TooLow(r[k]) then LOW else HIGH
  {
  }

  lemma ClippingKeepsProportion(raw: Table, r: Table, fixed: Table)
    requires Total(raw) && Total(r) && InProportion(raw, r, fixed)
    ensures InProportion(raw, Clipped(r, fixed), Grown(r, fixed))
  {
    var w, grown := Clipped(r, fixed), Grown(r, fixed);
    forall i: Key, j: Key | i !in grown && j !in grown
      ensures Times(Pos(w[i]), Base(raw, j)) == Times(Pos(w[j]), Base(raw, i))
      ensures Base(raw, i) <= Base(raw, j) ==> Pos(w[i]) <= Pos(w[j])
    {
      ClippedKey(r, fixed, i);
      ClippedKey(r, fixed, j);
    }
    forall i: Key, j: Key | i !in grown && j in grown && grown[j] == LOW ensures Base(raw, j) < Base(raw, i) {
      ClippedKey(r, fixed, i);
      ClippedKey(r, fixed, j);
    }
  }

  lemma ClippingIsForCause(raw: Table, r: Table, fixed: Table)
    requires Total(raw) && Total(r) && ReadyToClip(raw, r, fixed)
    ensures LowForCause(raw, Clipped(r, fixed), Grown(r, fixed))
  {
    var w, grown := Clipped(r, fixed), Grown(r, fixed);
    forall i: Key, j: Key | i in grown && grown[i] == LOW && j !in grown && !(HighShare(raw) && TooLow(Share(raw, i)))
      ensures Times(w[j], Base(raw, i)) <= Times(LOW, Base(raw, j))
    {
      if i !in fixed {
        assert Times(Pos(r[i]), Base(raw, j)) == Times(Pos(r[j]), Base(raw, i));
        TimesMonotone(r[i], LOW, Base(raw, j));
      }
    }
  }

  /** Raising low keys to the bound leaves the other free keys at least as much as remains. */
  lemma RaisingLeavesEnough(r: Table, fixed: Table)
    requires Total(r) && AtBounds(r, fixed) && AtBounds(Clipped(r, fixed), Grown(r, fixed))
    requires FreeSum(r, fixed) == Remaining(fixed) && forall k: Key | k !in fixed :: r[k] >= 0.0 && !TooHigh(r[k])
    ensures FreeSum(Clipped(r, fixed), Grown(r, fixed)) >= Remaining(Grown(r, fixed))
  {
    var w, grown := Clipped(r, fixed), Grown(r, fixed);
    FixedSumBound(r, fixed);
    FixedSumBound(w, grown);
    forall k: Key ensures FreePart(w, grown, k) + FixedPart(grown, k) >= FreePart(r, fixed, k) + FixedPart(fixed, k) {
      ClippedKey(r, fixed, k);
    }
  }

  lemma ClippingKeepsShrinking(raw: Table, r: Table, fixed: Table)
    requires Total(raw) && Total(r) && ReadyToClip(raw, r, fixed)
    ensures Shrinking(raw, Clipped(r, fixed), Grown(r, fixed))
  {
    var w, grown := Clipped(r, fixed), Grown(r, fixed);
    if forall k: Key | k !in fixed :: !TooHigh(r[k]) {
      ClippingKeepsBounds(raw, r, fixed);
      RaisingLeavesEnough(r, fixed);
    } else {
      forall i: Key | i in grown && grown[i] == LOW ensures TooLow(Share(raw, i)) {
        ClippedKey(r, fixed, i);
      }
    }
  }

  lemma FirstClippingFixesAllIff(raw: Table, r: Table)
    requires Total(raw) && Total(r) && forall k: Key :: r[k] == Share(raw, k)
    ensures AllFixed(Grown(r, NONE)) <==> Exceptional(raw)
  {
    forall k: Key ensures k in Grown(r, NONE) <==> !InRange(Share(raw, k)) {
      ClippedKey(r, NONE, k);
    }
    SharesSumToOne(raw);
    assert exists k: Key :: !TooLow(Share(raw, k));
  }

  lemma LowFreeSum(r: Table, fixed: Table)
    requires Total(r) && forall k: Key | k !in fixed :: TooLow(r[k])
    ensures FreeSum(r, fixed) <= LOW * FreeCount(fixed) as real
  {
  }

  lemma LaterClippingLeavesOneFree(r: Table, fixed: Table)
    requires Total(r) && AtBounds(r, fixed) && FreeSum(r, fixed) == Remaining(fixed) && !AllFixed(fixed)
    requires forall k: Key | k !in fixed :: r[k] >= 0.0 && !TooHigh(r[k])
    ensures !AllFixed(Grown(r, fixed))
  {
    FixedSumBound(r, fixed);
    if forall k: Key | k !in fixed :: TooLow(r[k]) {
      LowFreeSum(r, fixed);
      assert false;
    }
    var k: Key :| k !in fixed && !TooLow(r[k]);
    ClippedKey(r, fixed, k);
  }

  /** The pass after rescaling leaves a state that further passes can start from. */
  lemma Clipping(raw: Table, r: Table, fixed: Table)
    requires Total(raw) && Total(r) && ReadyToClip(raw, r, fixed)
    requires AllFixed(Grown(r, fixed)) <==> Exceptional(raw)
    ensures Underway(raw, Clipped(r, fixed), Grown(r, fixed))
  {
    ClippingKeepsBounds(raw, r, fixed);
    ClippingKeepsProportion(raw, r, fixed);
    ClippingIsForCause(raw, r, fixed);
    ClippingKeepsShrinking(raw, r, fixed);
    var w, grown := Clipped(r, fixed), Grown(r, fixed);
    forall k: Key
      ensures k !in grown ==> InRange(w[k])
      ensures k in grown && grown[k] == HIGH ==> TooHigh(Share(raw, k))
      ensures TooHigh(Share(raw, k)) ==> k in grown && grown[k] == HIGH
      ensures TooLow(Share(raw, k)) ==> k in grown && grown[k] == LOW
    {
      ClippedKey(r, fixed, k);
    }
  }

  // ----- the loop --------------------------------------------------------------------------

  /** The keys looked at in the first `n` steps of a loop over the order. */
  function Seen(n: nat): set<Key> {
    if n == 0 then {}
    else if n == 1 then {Recency}
    else if n == 2 then {Recency, SemanticSimilarity}
    else if n == 3 then {Recency, SemanticSimilarity, Reliability}
    else {Recency, SemanticSimilarity, Reliability, PolicySafety}
  }

  lemma SeenGrows(n: nat)
    requires n < |ORDER|
    ensures ORDER[n] !in Seen(n) && Seen(n + 1) == Seen(n) + {ORDER[n]}
  {
  }

  lemma SeenAll(k: Key)
    ensures k in Seen(|ORDER|)
  {
  }

  function RescaledOn(w: Table, fixed: Table, seen: set<Key>): Table
    requires Total(w)
  {
    map k | k in w :: if k in fixed || k !in seen then w[k] else Portion(w, fixed, k)
  }

  lemma RescaleKey(w: Table, fixed: Table, seen: set<Key>, key: Key)
    requires Total(w) && key !in seen
    ensures key in fixed ==> RescaledOn(w, fixed, seen + {key}) == RescaledOn(w, fixed, seen)
    ensures key !in fixed ==> RescaledOn(w, fixed, seen + {key}) == RescaledOn(w, fixed, seen)[key := Portion(w, fixed, key)]
  {
  }

  lemma RescaledAll(w: Table, fixed: Table, seen: set<Key>)
    requires Total(w) && forall k: Key :: k in seen
    ensures RescaledOn(w, fixed, seen) == Rescaled(w, fixed) && RescaledOn(w, fixed, {}) == w
  {
  }

  method RescaleFree(weights: Table, fixed: Table) returns (rescaled: Table)
    requires Total(weights)
    ensures rescaled == Rescaled(weights, fixed)
  {
    forall k: Key ensures k in Seen(|ORDER|) { SeenAll(k); }
    RescaledAll(weights, fixed, Seen(|ORDER|));
    rescaled := weights;
    for i := 0 to |ORDER|
      invariant rescaled == RescaledOn(weights, fixed, Seen(i))
    {
      var key := ORDER[i];
      SeenGrows(i);
      RescaleKey(weights, fixed, Seen(i), key);
      if key !in fixed {
        rescaled := rescaled[key := Portion(weights, fixed, key)];
      }
    }
  }

  /** The clipping done once some of the keys have been looked at. */
  function ClippedOn(w: Table, fixed: Table, seen: set<Key>): Table {
    map k | k in w :: if k in fixed || k !in seen then w[k] else Clip(w[k])
  }

  function FixedOn(w: Table, fixed: Table, seen: set<Key>): Table {
    map k | k in w && k !in fixed && k in seen && !InRange(w[k]) :: Clip(w[k])
  }

  lemma LookAtKey(w: Table, fixed: Table, seen: set<Key>, key: Key)
    requires Total(w) && key !in seen
    ensures ClippedOn(w, fixed, seen)[key] == w[key] && key !in FixedOn(w, fixed, seen)
    ensures key in fixed || InRange(w[key]) ==>
              ClippedOn(w, fixed, seen + {key}) == ClippedOn(w, fixed, seen)
              && FixedOn(w, fixed, seen + {key}) == FixedOn(w, fixed, seen)
    ensures key !in fixed && !InRange(w[key]) ==>
              ClippedOn(w, fixed, seen + {key}) == ClippedOn(w, fixed, seen)[key := Clip(w[key])]
              && FixedOn(w, fixed, seen + {key}) == FixedOn(w, fixed, seen)[key := Clip(w[key])]
              && FixedOn(w, fixed, seen + {key}) != NONE
  {
    assert key !in fixed && !InRange(w[key]) ==> key in FixedOn(w, fixed, seen + {key});
  }

  lemma LookedAtAll(w: Table, fixed: Table, seen: set<Key>)
    requires forall k: Key :: k in seen
    ensures ClippedOn(w, fixed, seen) == Clipped(w, fixed) && FixedOn(w, fixed, seen) == NewlyFixed(w, fixed)
    ensures ClippedOn(w, fixed, {}) == w && FixedOn(w, fixed, {}) == NONE
  {
  }

  lemma FixOneMore(fixed: Table, newly: Table, key: Key, bound: real)
    ensures (fixed + newly)[key := bound] == fixed + newly[key := bound] && fixed + NONE == fixed
  {
  }

  ghost predicate ClippedSoFar(w: Table, fixed: Table, clipped: Table, grown: Table, changed: bool, n: nat) {
    && clipped == ClippedOn(w, fixed, Seen(n))
    && grown == fixed + FixedOn(w, fixed, Seen(n))
    && (changed <==> FixedOn(w, fixed, Seen(n)) != NONE)
  }

  lemma ClipStep(w: Table, fixed: Table, clipped: Table, grown: Table, changed: bool, i: nat)
    requires Total(w) && i < |ORDER| && ClippedSoFar(w, fixed, clipped, grown, changed, i)
    ensures var key := ORDER[i];
            key in clipped && clipped[key] == w[key]
            && if key in fixed || InRange(w[key]) then ClippedSoFar(w, fixed, clipped, grown, changed, i + 1)
               else ClippedSoFar(w, fixed, clipped[key := Clip(w[key])], grown[key := Clip(w[key])], true, i + 1)
  {
    var key := ORDER[i];
    SeenGrows(i);
    LookAtKey(w, fixed, Seen(i), key);
    FixOneMore(fixed, FixedOn(w, fixed, Seen(i)), key, Clip(w[key]));
  }

  lemma ClipEnds(w: Table, fixed: Table, clipped: Table, grown: Table, changed: bool)
    requires ClippedSoFar(w, fixed, clipped, grown, changed, |ORDER|)
    ensures clipped == Clipped(w, fixed) && grown == Grown(w, fixed) && (changed <==> NewlyFixed(w, fixed) != NONE)
  {
    forall k: Key ensures k in Seen(|ORDER|) { SeenAll(k); }
    LookedAtAll(w, fixed, Seen(|ORDER|));
  }

  lemma ClipStarts(w: Table, fixed: Table)
    ensures ClippedSoFar(w, fixed, w, fixed, false, 0)
  {
  }

  method ClipFree(weights: Table, fixed: Table) returns (clipped: Table, grown: Table, changed: bool)
    requires Total(weights)
    ensures clipped == Clipped(weights, fixed) && grown == Grown(weights, fixed)
    ensures changed <==> NewlyFixed(weights, fixed) != NONE
  {
    ClipStarts(weights, fixed);
    clipped, grown, changed := weights, fixed, false;
    for i := 0 to |ORDER|
      invariant ClippedSoFar(weights, fixed, clipped, grown, changed, i)
    {
      var key := ORDER[i];
      ClipStep(weights, fixed, clipped, grown, changed, i);
      if key !in fixed {
        if TooLow(clipped[key]) {
          clipped, grown, changed := clipped[key := LOW], grown[key := LOW], true;
        } else if TooHigh(clipped[key]) {
          clipped, grown, changed := clipped[key := HIGH], grown[key := HIGH], true;
        }
      }
    }
    ClipEnds(weights, fixed, clipped, grown, changed);
  }

  /** Every pass that does not end the loop fixes at least one more key. */
  lemma PassFixesMore(r: Table, fixed: Table)
    requires Total(r) && NewlyFixed(r, fixed) != NONE
    ensures FreeCount(Grown(r, fixed)) < FreeCount(fixed) && Grown(r, fixed) != NONE
  {
    var k: Key :| k in NewlyFixed(r, fixed);
    KeyCases(k);
    forall i: Key ensures One(Grown(r, fixed), i) <= One(fixed, i) {
    }
  }

  lemma NothingClipped(r: Table, fixed: Table)
    requires Total(r) && NewlyFixed(r, fixed) == NONE
    ensures Clipped(r, fixed) == r && Grown(r, fixed) == fixed
  {
    forall k: Key | k !in fixed ensures InRange(r[k]) {
      assert k !in NewlyFixed(r, fixed);
    }
  }

  /** One pass from the start, or from a state earlier passes left. */
  lemma PassKeepsUnderway(raw: Table, w: Table, fixed: Table)
    requires Total(raw) && Total(w) && !AllFixed(fixed)
    requires (fixed == NONE && w == raw) || (fixed != NONE && Underway(raw, w, fixed))
    ensures Underway(raw, Clipped(Rescaled(w, fixed), fixed), Grown(Rescaled(w, fixed), fixed))
  {
    var r := Rescaled(w, fixed);
    if fixed == NONE {
      FirstRescaling(raw);
      forall k: Key ensures r[k] == Share(raw, k) {
        SharesAreRescaled(raw, k);
      }
      FirstClippingFixesAllIff(raw, r);
    } else {
      LaterRescaling(raw, w, fixed);
      forall k: Key | k !in fixed ensures !TooHigh(r[k]) {
        LaterRescalingIsNotHigh(raw, w, fixed, k);
      }
      LaterClippingLeavesOneFree(r, fixed);
    }
    Clipping(raw, r, fixed);
  }

  predicate SharesInRange(raw: Table)
    requires Total(raw)
  {
    forall k: Key :: InRange(Share(raw, k))
  }

  lemma SharesWhenFirst(raw: Table, w: Table, fixed: Table)
    requires Total(raw) && Total(w) && (fixed == NONE ==> w == raw)
    ensures fixed == NONE ==> forall k: Key :: Rescaled(w, fixed)[k] == Share(raw, k)
  {
  }

  lemma ClippingFirst(raw: Table, w: Table, fixed: Table)
    requires Total(raw) && Total(w)
    requires (fixed == NONE && w == raw) || !SharesInRange(raw)
    requires NewlyFixed(Rescaled(w, fixed), fixed) != NONE
    ensures !SharesInRange(raw)
  {
    var k: Key :| k in NewlyFixed(Rescaled(w, fixed), fixed);
    if fixed == NONE {
      SharesAreRescaled(raw, k);
    }
  }

  /** The rescale-and-clip loop ends, and ends in a state where either everything is fixed, which is
      the exceptional case, or the free keys share exactly what the fixed ones leave. */
  method Settle(raw: Table) returns (weights: Table, fixed: Table)
    requires Total(raw)
    ensures Total(weights) && Underway(raw, weights, fixed)
    ensures AllFixed(fixed) || FreeSum(weights, fixed) == Remaining(fixed)
    ensures SharesInRange(raw) ==> forall k: Key :: weights[k] == Share(raw, k)
  {
    weights, fixed := raw, NONE;
    while true
      invariant Total(weights)
      invariant (fixed == NONE && weights == raw)
                || (fixed != NONE && Underway(raw, weights, fixed) && !SharesInRange(raw))
      decreases FreeCount(fixed)
    {
      if AllFixed(fixed) {
        assert Recency in fixed;
        break;
      }
      ghost var w, f := weights, fixed;
      PassKeepsUnderway(raw, w, f);
      var rescaled := RescaleFree(weights, fixed);
      var changed;
      weights, fixed, changed := ClipFree(rescaled, fixed);
      if !changed {
        NothingClipped(rescaled, f);
        RescaledSum(w, f);
        SharesWhenFirst(raw, w, f);
        break;
      }
      PassFixesMore(rescaled, f);
      ClippingFirst(raw, w, f);
    }
  }

  // ----- the normalised weights ------------------------------------------------------------

  /** A key clipped at neither bound. */
  predicate Unclipped(raw: Table, w: Table, k: Key)
    requires Total(raw) && Total(w)
  {
    w[k] != LOW && !TooHigh(Share(raw, k))
  }

  /** What the weights are, before rounding, in terms of the raw ones alone. */
  ghost predicate Normalised(raw: Table, w: Table)
    requires Total(raw) && Total(w)
  {
    Sum(w) == 1.0
    && if Exceptional(raw) then
         forall k: Key :: w[k] == if TooHigh(Share(raw, k)) then 14.0 / 17.0 else 1.0 / 17.0
       else
         && (forall k: Key :: InRange(w[k]))
         && (forall k: Key | TooHigh(Share(raw, k)) :: w[k] == HIGH)
         && (forall k: Key | TooLow(Share(raw, k)) :: w[k] == LOW)
         && (SharesInRange(raw) ==> forall k: Key :: w[k] == Share(raw, k))
         && (forall i: Key, j: Key | Base(raw, i) <= Base(raw, j) ::
               w[i] <= w[j] || w[i] == LOW || w[j] == HIGH)
         && (forall i: Key, j: Key | Unclipped(raw, w, i) && Unclipped(raw, w, j) ::
               Times(w[i], Base(raw, j)) == Times(w[j], Base(raw, i)))
         && (forall i: Key, j: Key | w[i] == LOW && Unclipped(raw, w, j) && !(HighShare(raw) && TooLow(Share(raw, i))) ::
               Times(w[j], Base(raw, i)) <= Times(LOW, Base(raw, j)))
  }

  function Divided(w: Table, s: real): (d: Table)
    requires Total(w) && s != 0.0
    ensures Total(d)
  {
    map k | k in w :: w[k] / s
  }

  lemma BalancedSum(w: Table, fixed: Table)
    requires Total(w) && AtBounds(w, fixed) && FreeSum(w, fixed) == Remaining(fixed)
    requires forall k: Key | k !in fixed :: InRange(w[k])
    ensures Sum(w) == 1.0
  {
  }

  lemma ExceptionalSum(raw: Table, w: Table, fixed: Table)
    requires Total(raw) && Total(w) && Underway(raw, w, fixed) && AllFixed(fixed)
    ensures Exceptional(raw) && Sum(w) == 0.85
    ensures Normalised(raw, Divided(w, 0.85))
  {
    forall k: Key ensures w[k] == if TooHigh(Share(raw, k)) then HIGH else LOW {
      assert k in fixed;
    }
    var h: Key :| TooHigh(Share(raw, h));
    assert h in fixed && fixed[h] == HIGH;
    KeyCases(h);
    forall k: Key ensures k == h <==> TooHigh(Share(raw, k)) {
      assert k in fixed;
    }
  }

  lemma OrderIsKept(raw: Table, w: Table, fixed: Table, i: Key, j: Key)
    requires Total(raw) && Total(w) && Underway(raw, w, fixed) && Base(raw, i) <= Base(raw, j)
    ensures w[i] <= w[j] || w[i] == LOW || w[j] == HIGH
  {
    if i in fixed && fixed[i] == HIGH {
      assert TooHigh(Share(raw, i));
      ShareMonotone(raw, i, j);
      assert j in fixed && fixed[j] == HIGH;
    }
  }

  lemma ShareMonotone(raw: Table, i: Key, j: Key)
    requires Total(raw) && Base(raw, i) <= Base(raw, j)
    ensures Share(raw, i) <= Share(raw, j)
  {
    if FreeSum(raw, NONE) > 0.0 {
      RatioMonotone(Base(raw, i), Base(raw, j), FreeSum(raw, NONE));
    }
  }

  lemma RatioMonotone(x: real, y: real, d: real)
    requires x <= y && d > 0.0
    ensures Ratio(x, d) <= Ratio(y, d)
  {
    assert (y - x) / d >= 0.0;
    assert y / d == x / d + (y - x) / d;
  }

  lemma BalancedIsNormalised(raw: Table, w: Table, fixed: Table)
    requires Total(raw) && Total(w) && Underway(raw, w, fixed)
    requires !AllFixed(fixed) && FreeSum(w, fixed) == Remaining(fixed)
    requires SharesInRange(raw) ==> forall k: Key :: w[k] == Share(raw, k)
    ensures Normalised(raw, w)
  {
    BalancedSum(w, fixed);
    forall k: Key ensures InRange(w[k]) {
    }
    forall i: Key, j: Key | Base(raw, i) <= Base(raw, j) ensures w[i] <= w[j] || w[i] == LOW || w[j] == HIGH {
      OrderIsKept(raw, w, fixed, i, j);
    }
    forall k: Key | Unclipped(raw, w, k) ensures k !in fixed {
    }
    forall i: Key, j: Key | w[i] == LOW && Unclipped(raw, w, j) && !(HighShare(raw) && TooLow(Share(raw, i)))
      ensures Times(w[j], Base(raw, i)) <= Times(LOW, Base(raw, j))
    {
      if i !in fixed {
        assert Times(Pos(w[i]), Base(raw, j)) == Times(Pos(w[j]), Base(raw, i));
      }
    }
  }

  // ----- rounding --------------------------------------------------------------------------

  type Millionths = map<Key, int>

  ghost predicate Rounds(w: Table, m: Millionths)
    requires Total(w)
  {
    && (forall k: Key :: k in m)
    && m[Recency] == Micros(w[Recency])
    && m[SemanticSimilarity] == Micros(w[SemanticSimilarity])
    && m[Reliability] == Micros(w[Reliability])
    && m[PolicySafety] == 1000000 - m[Recency] - m[SemanticSimilarity] - m[Reliability]
  }

  method RoundWeights(weights: Table) returns (normalized: Millionths)
    requires Total(weights)
    ensures Rounds(weights, normalized)
  {
    normalized := map[];
    var running := 0;
    for i := 0 to |ORDER|
      invariant i >= 1 ==> Recency in normalized && normalized[Recency] == Micros(weights[Recency])
      invariant i >= 2 ==> SemanticSimilarity in normalized && normalized[SemanticSimilarity] == Micros(weights[SemanticSimilarity])
      invariant i >= 3 ==> Reliability in normalized && normalized[Reliability] == Micros(weights[Reliability])
      invariant i >= 4 ==> PolicySafety in normalized && normalized[PolicySafety] == 1000000 - running
      invariant running == (if i >= 1 then normalized[Recency] else 0) + (if i >= 2 then normalized[SemanticSimilarity] else 0)
                           + (if i >= 3 then normalized[Reliability] else 0)
    {
      var key := ORDER[i];
      if i == |ORDER| - 1 {
        normalized := normalized[key := 1000000 - running];
      } else {
        normalized := normalized[key := Micros(weights[key])];
        running := running + normalized[key];
      }
    }
    forall k: Key ensures k in normalized { KeyCases(k); }
  }

  lemma DividedByOne(w: Table)
    requires Total(w)
    ensures Divided(w, 1.0) == w
  {
  }

  lemma SettledIsNormalised(raw: Table, w: Table, fixed: Table)
    requires Total(raw) && Total(w) && Underway(raw, w, fixed)
    requires AllFixed(fixed) || FreeSum(w, fixed) == Remaining(fixed)
    requires SharesInRange(raw) ==> forall k: Key :: w[k] == Share(raw, k)
    ensures Sum(w) > 0.0 && Normalised(raw, Divided(w, Sum(w)))
  {
    if AllFixed(fixed) {
      ExceptionalSum(raw, w, fixed);
    } else {
      BalancedSum(w, fixed);
      BalancedIsNormalised(raw, w, fixed);
      DividedByOne(w);
    }
  }

  /** The weights in millionths, the last taking what the others leave. */
  method BoundedNormalizeWeights(raw: Table) returns (normalized: Millionths)
    requires Total(raw)
    ensures exists w: Table | Total(w) :: Normalised(raw, w) && Rounds(w, normalized)
    ensures normalized[Recency] + normalized[SemanticSimilarity] + normalized[Reliability] + normalized[PolicySafety] == 1000000
    ensures (forall k: Key :: 49999 <= normalized[k] <= 700001) <==> !Exceptional(raw)
  {
    var weights, fixed := Settle(raw);
    var sum := Sum(weights);
    SettledIsNormalised(raw, weights, fixed);
    if sum <= 0.0 {
      assert false;
    } else {
      weights := Divided(weights, sum);
    }
    normalized := RoundWeights(weights);
    PublishedWithinBoundsIff(raw, weights, normalized);
  }

  lemma MicrosMonotone(x: real, y: real)
    requires x <= y
    ensures Micros(x) <= Micros(y)
  {
  }

  lemma MicrosInRange(x: real)
    requires InRange(x)
    ensures 50000 <= Micros(x) <= 700000
    ensures x == LOW ==> Micros(x) == 50000
    ensures x == HIGH ==> Micros(x) == 700000
  {
  }

  lemma PublishedWhenExceptional(raw: Table, w: Table, m: Millionths)
    requires Total(raw) && Total(w) && Normalised(raw, w) && Rounds(w, m) && Exceptional(raw)
    ensures exists k: Key :: m[k] > 700001
    ensures forall k: Key | k != PolicySafety :: m[k] == if TooHigh(Share(raw, k)) then 823529 else 58824
    ensures m[PolicySafety] == if TooHigh(Share(raw, PolicySafety)) then 823528 else 58823
  {
  }

  lemma PublishedWhenOrdinary(raw: Table, w: Table, m: Millionths)
    requires Total(raw) && Total(w) && Normalised(raw, w) && Rounds(w, m) && !Exceptional(raw)
    ensures forall k: Key :: 49999 <= m[k] <= 700001
    ensures forall k: Key | k != PolicySafety :: 50000 <= m[k] <= 700000
  {
    forall k: Key ensures 50000 <= Micros(w[k]) <= 700000 {
      MicrosInRange(w[k]);
    }
    var last := w[PolicySafety];
    assert InRange(last);
    assert m[Recency] as real + m[SemanticSimilarity] as real + m[Reliability] as real
           <= (1.0 - last) * 1000000.0 + 1.5;
    assert m[Recency] as real + m[SemanticSimilarity] as real + m[Reliability] as real
           > (1.0 - last) * 1000000.0 - 1.5;
    forall k: Key ensures 49999 <= m[k] <= 700001 && (k != PolicySafety ==> 50000 <= m[k] <= 700000) {
      KeyCases(k);
    }
  }

  /** The published weights add up to exactly one. They lie within the bounds, the last give or take
      the rounding it absorbs, unless one share is too high and the other three too low; then that
      one gets 14/17 and the others 1/17 each. */
  lemma PublishedWithinBoundsIff(raw: Table, w: Table, m: Millionths)
    requires Total(raw) && Total(w) && Normalised(raw, w) && Rounds(w, m)
    ensures m[Recency] + m[SemanticSimilarity] + m[Reliability] + m[PolicySafety] == 1000000
    ensures (forall k: Key :: 49999 <= m[k] <= 700001) <==> !Exceptional(raw)
    ensures !Exceptional(raw) ==> forall k: Key | k != PolicySafety :: 50000 <= m[k] <= 700000
    ensures Exceptional(raw) ==> forall k: Key | k != PolicySafety :: m[k] == if TooHigh(Share(raw, k)) then 823529 else 58824
    ensures Exceptional(raw) ==> m[PolicySafety] == if TooHigh(Share(raw, PolicySafety)) then 823528 else 58823
  {
    if Exceptional(raw) {
      PublishedWhenExceptional(raw, w, m);
    } else {
      PublishedWhenOrdinary(raw, w, m);
    }
  }

  /** Of the weights rounded on their own, a smaller raw weight never gets the larger result. */
  lemma PublishedKeepsOrder(raw: Table, w: Table, m: Millionths, i: Key, j: Key)
    requires Total(raw) && Total(w) && Normalised(raw, w) && Rounds(w, m)
    requires i != PolicySafety && j != PolicySafety && Base(raw, i) <= Base(raw, j)
    ensures m[i] <= m[j]
  {
    KeyCases(i);
    KeyCases(j);
    if Exceptional(raw) {
      ShareMonotone(raw, i, j);
      MicrosMonotone(w[i], w[j]);
    } else {
      MicrosInRange(w[i]);
      MicrosInRange(w[j]);
      if w[i] <= w[j] {
        MicrosMonotone(w[i], w[j]);
      }
    }
  }

  /** The exceptional case is reached: all the raw weight on one key. */
  lemma ExceptionalExample()
    ensures var raw: Table := map[Recency := 1.0, SemanticSimilarity := 0.0, Reliability := 0.0, PolicySafety := 0.0];
            Total(raw) && Exceptional(raw)
  {
    var raw: Table := map[Recency := 1.0, SemanticSimilarity := 0.0, Reliability := 0.0, PolicySafety := 0.0];
    forall k: Key ensures k in raw { KeyCases(k); }
    assert FreeSum(raw, NONE) == 1.0;
    forall k: Key ensures Share(raw, k) == raw[k] { }
    assert TooHigh(Share(raw, Recency));
  }

  // ----- the recommendation ----------------------------------------------------------------

  datatype Metrics = Metrics(failureRate: real, p95LatencyMs: Timeline.Option<real>, recallFailureRate: real,
                             anomalyPer1kRequests: real, incidentsPer1kRequests: real,
                             highSeverityFeedbackRate: real, rollbackSignalRate: real)
  datatype Pressures = Pressures(failure: real, latency: real, recall: real, anomaly: real, incident: real, feedback: real)

  predicate Unit(x: real) { 0.0 <= x <= 1.0 }

  predicate UnitPressures(p: Pressures) {
    Unit(p.failure) && Unit(p.latency) && Unit(p.recall) && Unit(p.anomaly) && Unit(p.incident) && Unit(p.feedback)
  }

  function Pressure(x: real): (r: real)
    ensures Unit(r)
  {
    Round6Monotone(0.0, Clamp01(x));
    Round6Monotone(Clamp01(x), 1.0);
    Round6Exact(0);
    Round6Exact(1000000);
    Round6(Clamp01(x))
  }

  function ComputePressures(m: Metrics): (p: Pressures)
    ensures UnitPressures(p)
  {
    Pressures(
      Pressure((m.failureRate - 0.005) / 0.025),
      Pressure(((if m.p95LatencyMs.Some? then m.p95LatencyMs.value else 0.0) - 250.0) / 350.0),
      Pressure((m.recallFailureRate - 0.02) / 0.18),
      Pressure(m.anomalyPer1kRequests / 15.0),
      Pressure(m.incidentsPer1kRequests / 8.0),
      Pressure((m.highSeverityFeedbackRate + m.rollbackSignalRate) / 0.2))
  }

  function LatencyOf(m: Metrics): real { if m.p95LatencyMs.Some? then m.p95LatencyMs.value else 0.0 }

  /** Every metric of the second is at least as high, an unknown latency counting as none. */
  predicate MoreOf(m: Metrics, n: Metrics) {
    && m.failureRate <= n.failureRate && m.recallFailureRate <= n.recallFailureRate
    && LatencyOf(m) <= LatencyOf(n)
    && m.anomalyPer1kRequests <= n.anomalyPer1kRequests && m.incidentsPer1kRequests <= n.incidentsPer1kRequests
    && m.highSeverityFeedbackRate <= n.highSeverityFeedbackRate && m.rollbackSignalRate <= n.rollbackSignalRate
  }

  lemma PressureMonotone(x: real, y: real)
    requires x <= y
    ensures Pressure(x) <= Pressure(y)
  {
    Round6Monotone(Clamp01(x), Clamp01(y));
  }

  lemma PressureEnds(x: real)
    ensures x <= 0.0 ==> Pressure(x) == 0.0
    ensures x >= 1.0 ==> Pressure(x) == 1.0
    ensures x == 0.5 ==> Pressure(x) == 0.5
  {
    Round6Exact(0);
    Round6Exact(500000);
    Round6Exact(1000000);
  }

  lemma ServiceRaisesPressure(m: Metrics, n: Metrics)
    requires MoreOf(m, n)
    ensures var p, q := ComputePressures(m), ComputePressures(n);
            p.failure <= q.failure && p.latency <= q.latency && p.recall <= q.recall
  {
    PressureMonotone((m.failureRate - 0.005) / 0.025, (n.failureRate - 0.005) / 0.025);
    PressureMonotone((LatencyOf(m) - 250.0) / 350.0, (LatencyOf(n) - 250.0) / 350.0);
    PressureMonotone((m.recallFailureRate - 0.02) / 0.18, (n.recallFailureRate - 0.02) / 0.18);
  }

  lemma SignalsRaisePressure(m: Metrics, n: Metrics)
    requires MoreOf(m, n)
    ensures var p, q := ComputePressures(m), ComputePressures(n);
            p.anomaly <= q.anomaly && p.incident <= q.incident && p.feedback <= q.feedback
  {
    PressureMonotone(m.anomalyPer1kRequests / 15.0, n.anomalyPer1kRequests / 15.0);
    PressureMonotone(m.incidentsPer1kRequests / 8.0, n.incidentsPer1kRequests / 8.0);
    PressureMonotone((m.highSeverityFeedbackRate + m.rollbackSignalRate) / 0.2, (n.highSeverityFeedbackRate + n.rollbackSignalRate) / 0.2);
  }

  /** More of a metric never makes less pressure. */
  lemma MetricsRaisePressure(m: Metrics, n: Metrics)
    requires MoreOf(m, n)
    ensures MorePressure(ComputePressures(m), ComputePressures(n))
  {
    ServiceRaisesPressure(m, n);
    SignalsRaisePressure(m, n);
  }

  /** Where each pressure is none at all, half and full. */
  lemma PressureRanges(m: Metrics)
    ensures var p := ComputePressures(m);
            && (m.failureRate <= 0.005 ==> p.failure == 0.0) && (m.failureRate == 0.0175 ==> p.failure == 0.5)
            && (m.failureRate >= 0.03 ==> p.failure == 1.0)
            && (LatencyOf(m) <= 250.0 ==> p.latency == 0.0) && (LatencyOf(m) == 425.0 ==> p.latency == 0.5)
            && (LatencyOf(m) >= 600.0 ==> p.latency == 1.0)
            && (m.recallFailureRate <= 0.02 ==> p.recall == 0.0) && (m.recallFailureRate == 0.11 ==> p.recall == 0.5)
            && (m.recallFailureRate >= 0.2 ==> p.recall == 1.0)
    ensures var p := ComputePressures(m);
            && (m.anomalyPer1kRequests <= 0.0 ==> p.anomaly == 0.0) && (m.anomalyPer1kRequests == 7.5 ==> p.anomaly == 0.5)
            && (m.anomalyPer1kRequests >= 15.0 ==> p.anomaly == 1.0)
            && (m.incidentsPer1kRequests <= 0.0 ==> p.incident == 0.0) && (m.incidentsPer1kRequests == 4.0 ==> p.incident == 0.5)
            && (m.incidentsPer1kRequests >= 8.0 ==> p.incident == 1.0)
            && var feedback := m.highSeverityFeedbackRate + m.rollbackSignalRate;
               (feedback <= 0.0 ==> p.feedback == 0.0) && (feedback == 0.1 ==> p.feedback == 0.5)
               && (feedback >= 0.2 ==> p.feedback == 1.0)
  {
    PressureEnds((m.failureRate - 0.005) / 0.025);
    PressureEnds((LatencyOf(m) - 250.0) / 350.0);
    PressureEnds((m.recallFailureRate - 0.02) / 0.18);
    PressureEnds(m.anomalyPer1kRequests / 15.0);
    PressureEnds(m.incidentsPer1kRequests / 8.0);
    PressureEnds((m.highSeverityFeedbackRate + m.rollbackSignalRate) / 0.2);
  }

  function RecencyDelta(p: Pressures): real { 0.1 * p.latency + 0.06 * p.anomaly }
  function ReliabilityDelta(p: Pressures): real { 0.12 * p.recall + 0.08 * p.failure + 0.05 * p.incident }
  function PolicySafetyDelta(p: Pressures): real { 0.08 * p.incident + 0.05 * p.feedback }

  function RawWeights(p: Pressures): (raw: Table)
    ensures Total(raw)
  {
    var raw := map[
      Recency := 0.35 + RecencyDelta(p),
      SemanticSimilarity := 0.4 + -(RecencyDelta(p) + ReliabilityDelta(p) + PolicySafetyDelta(p)),
      Reliability := 0.15 + ReliabilityDelta(p),
      PolicySafety := 0.1 + PolicySafetyDelta(p)];
    assert forall k: Key :: k in raw by { forall k: Key ensures k in raw { KeyCases(k); } }
    raw
  }

  /** What one more unit of each pressure moves from semantic similarity to the weight it is for. */
  lemma PressureMovesWeight(p: Pressures, q: Pressures)
    ensures var v, w := RawWeights(p), RawWeights(q);
            && w[Recency] - v[Recency] == 0.1 * (q.latency - p.latency) + 0.06 * (q.anomaly - p.anomaly)
            && w[Reliability] - v[Reliability] == 0.12 * (q.recall - p.recall) + 0.08 * (q.failure - p.failure) + 0.05 * (q.incident - p.incident)
            && w[PolicySafety] - v[PolicySafety] == 0.08 * (q.incident - p.incident) + 0.05 * (q.feedback - p.feedback)
            && Sum(w) == Sum(v) == 1.0
            && (p == Pressures(0.0, 0.0, 0.0, 0.0, 0.0, 0.0) ==>
                  v[Recency] == 0.35 && v[SemanticSimilarity] == 0.4 && v[Reliability] == 0.15 && v[PolicySafety] == 0.1)
  {
  }

  /** Semantic similarity at the lower bound, the others sharing the rest in proportion. */
  function Lifted(raw: Table): (w: Table)
    requires Total(raw) && raw[Recency] + raw[Reliability] + raw[PolicySafety] > 0.0
    ensures Total(w)
  {
    var rest := raw[Recency] + raw[Reliability] + raw[PolicySafety];
    map k | k in raw :: if k == SemanticSimilarity then LOW else Ratio(0.95 * raw[k], rest)
  }

  lemma RawRanges(p: Pressures)
    requires UnitPressures(p)
    ensures var raw := RawWeights(p);
            Sum(raw) == 1.0 && 0.35 <= raw[Recency] <= 0.51 && -0.14 <= raw[SemanticSimilarity] <= 0.4
            && 0.15 <= raw[Reliability] <= 0.4 && 0.1 <= raw[PolicySafety] <= 0.23
  {
  }

  // Facts about the raw weights that the shares depend on.

  lemma RecommendedShares(p: Pressures)
    requires UnitPressures(p)
    ensures var raw := RawWeights(p);
            !HighShare(raw) && !Exceptional(raw)
            && (raw[SemanticSimilarity] >= 0.0 ==> forall k: Key :: Share(raw, k) == raw[k])
            && (raw[SemanticSimilarity] < 0.0 ==> Share(raw, SemanticSimilarity) == 0.0)
            && forall k: Key | k != SemanticSimilarity :: !TooLow(Share(raw, k))
  {
    var raw := RawWeights(p);
    RawRanges(p);
    var s := FreeSum(raw, NONE);
    assert 1.0 <= s <= 1.14;
    forall k: Key
      ensures Share(raw, k) <= Base(raw, k) <= 0.51
      ensures k != SemanticSimilarity ==> Share(raw, k) >= 0.08
      ensures raw[SemanticSimilarity] >= 0.0 ==> Share(raw, k) == raw[k]
    {
      KeyCases(k);
      RatioBounds(Base(raw, k), s);
    }
  }

  lemma RatioBounds(x: real, d: real)
    requires x >= 0.0 && 1.0 <= d <= 1.14
    ensures x / 1.14 <= Ratio(x, d) <= x
    ensures d == 1.0 ==> Ratio(x, d) == x
  {
    Quotient(x, d);
    TimesMonotone(1.0, d, Ratio(x, d));
    TimesMonotone(d, 1.14, Ratio(x, d));
    TimesUnit(1.0, Ratio(x, d));
    TimesUnit(d, Ratio(x, d));
    TimesUnit(1.14, Ratio(x, d));
    assert Times(1.14, Ratio(x, d)) == 1.14 * Ratio(x, d);
  }

  lemma SmallBeside(x: real, base: real, other: real)
    requires Times(x, base) <= Times(LOW, other) && base >= 0.1 && other <= 0.51 && x >= 0.0
    ensures x <= 0.26
  {
    TimesMonotone(0.1, base, x);
    TimesUnit(x, base);
    assert Times(0.1, x) == 0.1 * x && Times(LOW, other) == 0.05 * other;
  }

  /** With no high share and no large weight, a key that starts well above nothing is not clipped. */
  lemma NotClipped(raw: Table, w: Table, i: Key)
    requires Total(raw) && Total(w) && Normalised(raw, w) && !HighShare(raw)
    requires Base(raw, i) >= 0.1 && forall k: Key :: Base(raw, k) <= 0.51
    ensures Unclipped(raw, w, i)
  {
    forall j: Key ensures w[i] == LOW ==> w[j] <= 0.26 {
      assert InRange(w[j]);
      if w[i] == LOW && w[j] != LOW {
        SmallBeside(w[j], Base(raw, i), Base(raw, j));
      }
    }
    KeyCases(i);
  }

  lemma FactorOut(x: real, y: real, z: real, a: real, b: real, c: real)
    requires Times(x, b) == Times(y, a) && Times(x, c) == Times(z, a) && a + b + c > 0.0
    requires x + y + z == 0.95
    ensures x == Ratio(0.95 * a, a + b + c)
  {
    assert x * (a + b + c) == (x + y + z) * a;
    Quotiented(x, a + b + c, 0.95 * a);
  }

  lemma Quotiented(x: real, d: real, y: real)
    requires d > 0.0 && x * d == y
    ensures x == Ratio(y, d)
  {
  }

  lemma LiftedFrom(raw: Table, w: Table)
    requires Total(raw) && Total(w) && w[SemanticSimilarity] == LOW && Sum(w) == 1.0
    requires raw[Recency] > 0.0 && raw[Reliability] > 0.0 && raw[PolicySafety] > 0.0
    requires forall i: Key, j: Key | i != SemanticSimilarity && j != SemanticSimilarity ::
               Times(w[i], raw[j]) == Times(w[j], raw[i])
    ensures w == Lifted(raw)
  {
    var a, b, c := raw[Recency], raw[Reliability], raw[PolicySafety];
    var x, y, z := w[Recency], w[Reliability], w[PolicySafety];
    assert x + y + z == 0.95;
    FactorOut(x, y, z, a, b, c);
    FactorOut(y, x, z, b, a, c);
    FactorOut(z, x, y, c, a, b);
    forall k: Key ensures w[k] == Lifted(raw)[k] { KeyCases(k); }
    SameTable(w, Lifted(raw));
  }

  /** When semantic similarity is lifted to the lower bound, the others share the rest as before. */
  lemma LiftedWeights(raw: Table, w: Table)
    requires Total(raw) && Total(w) && Normalised(raw, w) && !HighShare(raw) && TooLow(Share(raw, SemanticSimilarity))
    requires raw[Recency] >= 0.1 && raw[Reliability] >= 0.1 && raw[PolicySafety] >= 0.1
    requires forall k: Key :: Base(raw, k) <= 0.51
    ensures w == Lifted(raw)
  {
    forall k: Key | k != SemanticSimilarity ensures Unclipped(raw, w, k) && Base(raw, k) == raw[k] {
      KeyCases(k);
      NotClipped(raw, w, k);
    }
    LiftedFrom(raw, w);
  }

  lemma SameTable(w: Table, v: Table)
    requires Total(w) && Total(v) && forall k: Key :: w[k] == v[k]
    ensures w == v
  {
  }

  /** What the recommendation is before rounding. */
  lemma RecommendedWeights(p: Pressures, w: Table)
    requires UnitPressures(p) && Total(w) && Normalised(RawWeights(p), w)
    ensures var raw := RawWeights(p);
            w == if InRange(raw[SemanticSimilarity]) then raw else Lifted(raw)
  {
    var raw := RawWeights(p);
    RawRanges(p);
    RecommendedShares(p);
    if InRange(raw[SemanticSimilarity]) {
      forall k: Key ensures InRange(Share(raw, k)) {
        KeyCases(k);
      }
      SameTable(w, raw);
    } else {
      forall k: Key ensures Base(raw, k) <= 0.51 { KeyCases(k); }
      LiftedWeights(raw, w);
    }
  }

  lemma LiftedRanges(raw: Table)
    requires Total(raw) && 0.35 <= raw[Recency] <= 0.51 && 0.15 <= raw[Reliability] <= 0.4 && 0.1 <= raw[PolicySafety] <= 0.23
    ensures var w := Lifted(raw);
            0.29 <= w[Recency] <= 0.81 && 0.12 <= w[Reliability] <= 0.64 && 0.08 <= w[PolicySafety] <= 0.37
  {
    var rest := raw[Recency] + raw[Reliability] + raw[PolicySafety];
    ShareOfRest(raw[Recency], rest);
    ShareOfRest(raw[Reliability], rest);
    ShareOfRest(raw[PolicySafety], rest);
  }

  lemma ShareOfRest(x: real, rest: real)
    requires 0.0 <= x && 0.6 <= rest <= 1.14
    ensures x / 1.2 <= Ratio(0.95 * x, rest) <= x / 0.6315
  {
    var r := Ratio(0.95 * x, rest);
    Quotient(0.95 * x, rest);
    TimesMonotone(0.6, rest, r);
    TimesMonotone(rest, 1.14, r);
    TimesUnit(rest, r);
    assert Times(0.6, r) == 0.6 * r && Times(1.14, r) == 1.14 * r;
  }

  /** What semantic similarity is left with once every pressure has taken its part. */
  function SemanticWeight(p: Pressures): int { Max(50000, Micros(RawWeights(p)[SemanticSimilarity])) }

  predicate MorePressure(p: Pressures, q: Pressures) {
    p.failure <= q.failure && p.latency <= q.latency && p.recall <= q.recall
    && p.anomaly <= q.anomaly && p.incident <= q.incident && p.feedback <= q.feedback
  }

  /** Under more pressure of any kind semantic similarity never weighs more, and never more than at
      the baseline. */
  lemma PressureLowersSemantic(p: Pressures, q: Pressures)
    requires UnitPressures(p) && MorePressure(p, q)
    ensures SemanticWeight(q) <= SemanticWeight(p) <= 400000
  {
    var x, y := RawWeights(p)[SemanticSimilarity], RawWeights(q)[SemanticSimilarity];
    assert y <= x <= 0.4;
    FloorMonotone(y * 1000000.0 + 0.5, x * 1000000.0 + 0.5);
    FloorMonotone(x * 1000000.0 + 0.5, 0.4 * 1000000.0 + 0.5);
    assert Micros(0.4) == 400000;
  }

  lemma SemanticIsLeft(p: Pressures, w: Table, m: Millionths)
    requires UnitPressures(p) && Total(w) && Rounds(w, m)
    requires var raw := RawWeights(p); w == if InRange(raw[SemanticSimilarity]) then raw else Lifted(raw)
    ensures m[SemanticSimilarity] == SemanticWeight(p)
  {
    var x := RawWeights(p)[SemanticSimilarity];
    RawRanges(p);
    assert Micros(LOW) == 50000;
    if InRange(x) {
      FloorMonotone((LOW - EPSILON) * 1000000.0 + 0.5, x * 1000000.0 + 0.5);
      assert Micros(LOW - EPSILON) == 50000;
    } else {
      FloorMonotone(x * 1000000.0 + 0.5, LOW * 1000000.0 + 0.5);
    }
  }

  /** The recommended weights: every one within the bounds, adding up to one, equal to the baseline
      plus the deltas unless semantic similarity would sink below the lower bound. */
  method RecommendRankingWeights(p: Pressures) returns (m: Millionths)
    requires UnitPressures(p)
    ensures var raw := RawWeights(p);
            Rounds(if InRange(raw[SemanticSimilarity]) then raw else Lifted(raw), m)
    ensures (forall k: Key :: 50000 <= m[k] <= 700000) && m[SemanticSimilarity] == SemanticWeight(p)
  {
    var raw := RawWeights(p);
    m := BoundedNormalizeWeights(raw);
    ghost var w: Table :| Total(w) && Normalised(raw, w) && Rounds(w, m);
    RecommendedWeights(p, w);
    RecommendedInBounds(p, w, m);
    SemanticIsLeft(p, w, m);
  }

  lemma RecommendedInBounds(p: Pressures, w: Table, m: Millionths)
    requires UnitPressures(p) && Total(w) && Normalised(RawWeights(p), w) && Rounds(w, m)
    ensures forall k: Key :: 50000 <= m[k] <= 700000
  {
    var raw := RawWeights(p);
    RawRanges(p);
    RecommendedShares(p);
    RecommendedWeights(p, w);
    LiftedRanges(raw);
    PublishedWithinBoundsIff(raw, w, m);
    assert 0.08 <= w[PolicySafety] <= 0.4;
    forall k: Key ensures 50000 <= m[k] <= 700000 { KeyCases(k); }
  }
}
