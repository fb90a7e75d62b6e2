/** Misconception records: signals are counted once by id, and status, anti-patterns and the decay
    stage follow from the counts. */
module Misconceptions {
  import opened Numbers
  import opened Timeline

  datatype Kind = Harmful | Helpful | Correction
  datatype Status = Active | Resolved | Suppressed
  datatype Signal = Signal(id: int, kind: Kind, suppress: bool, evidence: set<int>, severity: real, confidence: real, at: int)
  datatype AntiPattern = AntiPattern(id: int, threshold: nat, stage: nat, harmfulCount: nat, evidence: set<int>, signals: set<int>, at: int)

  datatype Record = Record(
    status: Status, harmful: nat, helpful: nat, correction: nat, confidence: real,
    evidence: set<int>, signals: set<int>, antiPatterns: seq<AntiPattern>, at: int)

  /** The ids of a misconception's anti-patterns, by threshold. */
  type PatternIds = nat -> int

  const PATTERN_THRESHOLDS: seq<nat> := [2, 3, 5]
  const CONFIDENCE_FLOOR := 0.05

  // ----- anti-patterns ---------------------------------------------------------------------

  function PatternKey(p: AntiPattern): Key { Key(p.at, p.id) }

  /** The patterns of the first `n` thresholds that a harmful count has reached. */
  function Reached(ids: PatternIds, harmful: nat, evidence: set<int>, signals: set<int>, at: int, n: nat): seq<AntiPattern>
    requires n <= |PATTERN_THRESHOLDS|
  {
    if n == 0 then []
    else
      var before := Reached(ids, harmful, evidence, signals, at, n - 1);
      var threshold := PATTERN_THRESHOLDS[n - 1];
      if harmful < threshold then before
      else before + [AntiPattern(ids(threshold), threshold, n, harmful, evidence, signals, at)]
  }

  /** Fails, like every bounded list, once there are more than 128 ids. */
  function AntiPatterns(ids: PatternIds, harmful: nat, evidence: set<int>, signals: set<int>, at: int): Option<seq<AntiPattern>> {
    if harmful == 0 then Some([])
    else if |evidence| > MAX_LIST_ITEMS || |signals| > MAX_LIST_ITEMS then None
    else Some(Sort(Reached(ids, harmful, evidence, signals, at, |PATTERN_THRESHOLDS|), PatternKey))
  }

  method BuildAntiPatterns(ids: PatternIds, harmful: nat, evidence: set<int>, signals: set<int>, at: int)
    returns (patterns: Option<seq<AntiPattern>>)
    ensures patterns == AntiPatterns(ids, harmful, evidence, signals, at)
  {
    if harmful <= 0 {
      return Some([]);
    }
    if |evidence| > MAX_LIST_ITEMS || |signals| > MAX_LIST_ITEMS {
      return None;
    }
    var found := [];
    var index := 0;
    while index < |PATTERN_THRESHOLDS|
      invariant 0 <= index <= |PATTERN_THRESHOLDS|
      invariant found == Reached(ids, harmful, evidence, signals, at, index)
    {
      var threshold := PATTERN_THRESHOLDS[index];
      if harmful >= threshold {
        found := found + [AntiPattern(ids(threshold), threshold, index + 1, harmful, evidence, signals, at)];
      }
      index := index + 1;
    }
    patterns := Some(Sort(found, PatternKey));
  }

  function ThresholdsReached(harmful: nat): set<nat> { set t | t in PATTERN_THRESHOLDS && t <= harmful }

  lemma {:induction false} ReachedMembers(ids: PatternIds, harmful: nat, evidence: set<int>, signals: set<int>, at: int, n: nat)
    requires n <= |PATTERN_THRESHOLDS|
    ensures var ps := Reached(ids, harmful, evidence, signals, at, n);
            && (forall i | 0 <= i < n && PATTERN_THRESHOLDS[i] <= harmful ::
                  AntiPattern(ids(PATTERN_THRESHOLDS[i]), PATTERN_THRESHOLDS[i], i + 1, harmful, evidence, signals, at) in ps)
            && (forall p | p in ps :: p.threshold in ThresholdsReached(harmful) && p.id == ids(p.threshold)
                                      && p.harmfulCount == harmful && p.evidence == evidence && p.signals == signals && p.at == at)
  {
    if n > 0 {
      ReachedMembers(ids, harmful, evidence, signals, at, n - 1);
    }
  }

  lemma ReachedLength(ids: PatternIds, harmful: nat, evidence: set<int>, signals: set<int>, at: int)
    ensures |Reached(ids, harmful, evidence, signals, at, 3)| == |ThresholdsReached(harmful)|
  {
    assert |Reached(ids, harmful, evidence, signals, at, 0)| == 0;
    assert |Reached(ids, harmful, evidence, signals, at, 1)| == if harmful >= 2 then 1 else 0;
    assert |Reached(ids, harmful, evidence, signals, at, 2)| == if harmful >= 3 then 2 else if harmful >= 2 then 1 else 0;
    assert ThresholdsReached(harmful) ==
           if harmful >= 5 then {2, 3, 5} else if harmful >= 3 then {2, 3} else if harmful >= 2 then {2} else {};
  }

  /** Exactly one pattern per threshold reached. */
  lemma OnePatternPerThreshold(ids: PatternIds, harmful: nat, evidence: set<int>, signals: set<int>, at: int)
    requires AntiPatterns(ids, harmful, evidence, signals, at).Some?
    ensures var ps := AntiPatterns(ids, harmful, evidence, signals, at).value;
            && |ps| == |ThresholdsReached(harmful)|
            && (forall p | p in ps :: p.threshold in ThresholdsReached(harmful) && p.harmfulCount == harmful
                                      && p.id == ids(p.threshold) && p.evidence == evidence && p.signals == signals)
            && (forall t | t in ThresholdsReached(harmful) :: exists p | p in ps :: p.threshold == t)
  {
    ReachedMembers(ids, harmful, evidence, signals, at, 3);
    ReachedLength(ids, harmful, evidence, signals, at);
    var ps := AntiPatterns(ids, harmful, evidence, signals, at).value;
    if harmful == 0 {
      assert ThresholdsReached(0) == {};
    }
    forall t | t in ThresholdsReached(harmful) ensures exists p | p in ps :: p.threshold == t {
      var i: nat :| i < 3 && PATTERN_THRESHOLDS[i] == t;
      var p := AntiPattern(ids(t), t, i + 1, harmful, evidence, signals, at);
      assert p in ps;
    }
  }

  // ----- confidence ------------------------------------------------------------------------

  function DecayStage(harmful: nat): nat {
    if harmful < 1 then 0 else if harmful < 2 then 1 else if harmful < 3 then 2 else if harmful < 5 then 3 else 4
  }

  function DecayBase(stage: nat): real {
    if stage == 0 then 0.0 else if stage == 1 then 0.18 else if stage == 2 then 0.24 else if stage == 3 then 0.32 else 0.42
  }

  function ConfidenceShift(kind: Kind, harmful: nat, severity: real): real {
    if kind != Harmful then 0.11
    else -Round6(DecayBase(DecayStage(harmful)) + Round6(Clamp01(severity) * 0.08))
  }

  function NextConfidence(confidence: real, kind: Kind, harmful: nat, severity: real): real {
    var base := Clamp01(confidence + ConfidenceShift(kind, harmful, severity));
    if kind == Harmful then MaxReal(CONFIDENCE_FLOOR, base) else base
  }

  // ----- records ---------------------------------------------------------------------------

  function One(kind: Kind, which: Kind): nat { if kind == which then 1 else 0 }

  function StatusOf(suppressed: bool, harmful: nat, correction: nat): Status {
    if suppressed then Suppressed
    else if correction >= harmful && harmful > 0 then Resolved
    else Active
  }

  /** The record a first signal creates. */
  function FirstRecord(ids: PatternIds, s: Signal): Option<Record> {
    var harmful := One(s.kind, Harmful);
    var patterns := AntiPatterns(ids, harmful, s.evidence, {s.id}, s.at);
    if patterns.None? then None
    else Some(Record(
                if s.suppress then Suppressed else Active, harmful, One(s.kind, Helpful), One(s.kind, Correction),
                Clamp01(s.confidence), s.evidence, {s.id}, patterns.value, s.at))
  }

  function Merge(ids: PatternIds, r: Record, s: Signal): Option<Record> {
    if s.id in r.signals then Some(r)
    else
      var harmful := r.harmful + One(s.kind, Harmful);
      var helpful := r.helpful + One(s.kind, Helpful);
      var correction := r.correction + One(s.kind, Correction);
      var evidence, signals := r.evidence + s.evidence, r.signals + {s.id};
      var patterns := AntiPatterns(ids, harmful, evidence, signals, s.at);
      if patterns.None? then None
      else Some(Record(
                  StatusOf(s.suppress || r.status == Suppressed, harmful, correction), harmful, helpful, correction,
                  NextConfidence(r.confidence, s.kind, harmful, s.severity), evidence, signals, patterns.value, s.at))
  }

  function Receive(ids: PatternIds, stored: Option<Record>, s: Signal): Option<Record> {
    if stored.None? then FirstRecord(ids, s) else Merge(ids, stored.value, s)
  }

  /** What is stored after some signals; a refused one changes nothing. */
  function Run(ids: PatternIds, ss: seq<Signal>): Option<Record> {
    if ss == [] then None
    else
      var before := Run(ids, ss[..|ss| - 1]);
      var after := Receive(ids, before, ss[|ss| - 1]);
      if after.None? then before else after
  }

  /** The signals that counted: not refused and not seen before. */
  function Counted(ids: PatternIds, ss: seq<Signal>): seq<Signal> {
    if ss == [] then []
    else
      var before, s := Run(ids, ss[..|ss| - 1]), ss[|ss| - 1];
      if Receive(ids, before, s).None? || (before.Some? && s.id in before.value.signals) then Counted(ids, ss[..|ss| - 1])
      else Counted(ids, ss[..|ss| - 1]) + [s]
  }

  /** When a record is suppressed, resolved or active, in counts. */
  lemma StatusFollows(suppressed: bool, harmful: nat, correction: nat)
    ensures StatusOf(suppressed, harmful, correction) == Suppressed <==> suppressed
    ensures StatusOf(suppressed, harmful, correction) == Resolved <==> !suppressed && 1 <= harmful <= correction
  {
  }

  /** How far a confidence of n millionths moves: eleven hundredths up for a helpful signal or a
      correction; for a harmful one of no severity down by 0.18, 0.24, 0.32 twice and 0.42 from the
      fifth on, to a twentieth at least. */
  lemma ConfidenceMoves(n: int, kind: Kind, harmful: nat, severity: real)
    requires 0 <= n <= 1000000 && harmful > 0
    ensures kind != Harmful ==>
              NextConfidence(n as real / 1000000.0, kind, harmful, severity) == Min(1000000, n + 110000) as real / 1000000.0
    ensures kind == Harmful && severity == 0.0 ==>
              var down := if harmful == 1 then 180000 else if harmful == 2 then 240000 else if harmful <= 4 then 320000 else 420000;
              NextConfidence(n as real / 1000000.0, kind, harmful, severity) == Max(50000, n - down) as real / 1000000.0
  {
    Round6Exact(0);
    var down := if harmful == 1 then 180000 else if harmful == 2 then 240000 else if harmful <= 4 then 320000 else 420000;
    Round6Exact(down);
    assert DecayBase(DecayStage(harmful)) == down as real / 1000000.0;
    assert n as real / 1000000.0 + 110000 as real / 1000000.0 == (n + 110000) as real / 1000000.0;
    assert n as real / 1000000.0 - down as real / 1000000.0 == (n - down) as real / 1000000.0;
  }

  /** A more severe harmful signal never leaves more confidence, and full severity takes off eight
      hundredths besides. */
  lemma SeverityLowers(confidence: real, harmful: nat, severity: real, more: real)
    requires severity <= more
    ensures NextConfidence(confidence, Harmful, harmful, more) <= NextConfidence(confidence, Harmful, harmful, severity)
    ensures Round6(Clamp01(1.0) * 0.08) == 0.08
    ensures ConfidenceShift(Harmful, harmful, 1.0) == ConfidenceShift(Harmful, harmful, 0.0) - 0.08
  {
    var x, y := Round6(Clamp01(severity) * 0.08), Round6(Clamp01(more) * 0.08);
    var base := DecayBase(DecayStage(harmful));
    Round6Monotone(Clamp01(severity) * 0.08, Clamp01(more) * 0.08);
    Round6Monotone(base + x, base + y);
    Round6Exact(80000);
    Round6Exact(0);
    var k := if base == 0.0 then 0 else if base == 0.18 then 180000 else if base == 0.24 then 240000 else if base == 0.32 then 320000 else 420000;
    Round6Exact(k);
    Round6Exact(k + 80000);
  }

  // ----- what the record says about the signals ---------------------------------------------

  function IdsOf(ss: seq<Signal>): set<int> { set s | s in ss :: s.id }
  function IdsOfKind(ss: seq<Signal>, kind: Kind): set<int> { set s | s in ss && s.kind == kind :: s.id }
  function EvidenceOf(ss: seq<Signal>): set<int> { set s, e | s in ss && e in s.evidence :: e }
  predicate AnySuppresses(ss: seq<Signal>) { exists s | s in ss :: s.suppress }

  ghost predicate DistinctIds(ss: seq<Signal>) { forall i, j | 0 <= i < j < |ss| :: ss[i].id != ss[j].id }

  /** A record as a function of the set of signals it counts, up to confidence and time. */
  ghost predicate Reflects(ids: PatternIds, r: Record, ss: seq<Signal>) {
    && r.signals == IdsOf(ss) && r.evidence == EvidenceOf(ss)
    && r.harmful == |IdsOfKind(ss, Harmful)| && r.helpful == |IdsOfKind(ss, Helpful)|
    && r.correction == |IdsOfKind(ss, Correction)|
    && r.harmful + r.helpful + r.correction == |r.signals|
    && r.status == StatusOf(AnySuppresses(ss), r.harmful, r.correction)
    && AntiPatterns(ids, r.harmful, r.evidence, r.signals, r.at) == Some(r.antiPatterns)
  }

  lemma AddSignal(ss: seq<Signal>, s: Signal)
    requires s.id !in IdsOf(ss)
    ensures IdsOf(ss + [s]) == IdsOf(ss) + {s.id} && EvidenceOf(ss + [s]) == EvidenceOf(ss) + s.evidence
    ensures AnySuppresses(ss + [s]) <==> AnySuppresses(ss) || s.suppress
    ensures forall k: Kind :: |IdsOfKind(ss + [s], k)| == |IdsOfKind(ss, k)| + One(s.kind, k)
    ensures |IdsOf(ss + [s])| == |IdsOf(ss)| + 1
  {
    var t := ss + [s];
    assert forall x :: x in t <==> x in ss || x == s;
    forall k: Kind ensures |IdsOfKind(t, k)| == |IdsOfKind(ss, k)| + One(s.kind, k) {
      assert IdsOfKind(t, k) == IdsOfKind(ss, k) + if s.kind == k then {s.id} else {};
      assert IdsOfKind(ss, k) <= IdsOf(ss);
    }
    assert IdsOf(t) == IdsOf(ss) + {s.id};
    AddEvidence(ss, s);
  }

  lemma AddEvidence(ss: seq<Signal>, s: Signal)
    ensures EvidenceOf(ss + [s]) == EvidenceOf(ss) + s.evidence
  {
    forall e ensures e in EvidenceOf(ss + [s]) <==> e in EvidenceOf(ss) || e in s.evidence {
      if e in EvidenceOf(ss) {
        var x :| x in ss && e in x.evidence;
        assert x in ss + [s];
      }
      if e in s.evidence {
        assert s in ss + [s];
      }
    }
  }

  lemma FirstReflects(ids: PatternIds, s: Signal)
    requires FirstRecord(ids, s).Some?
    ensures Reflects(ids, FirstRecord(ids, s).value, [s])
  {
    assert [] + [s] == [s] && EvidenceOf([]) == {};
    AddEvidence([], s);
    assert IdsOf([s]) == {s.id};
    assert AnySuppresses([s]) <==> s.suppress by { assert s in [s]; }
    forall k: Kind ensures |IdsOfKind([s], k)| == One(s.kind, k) {
      assert IdsOfKind([s], k) == if s.kind == k then {s.id} else {};
    }
  }

  lemma MergeReflects(ids: PatternIds, r: Record, s: Signal, ss: seq<Signal>)
    requires Reflects(ids, r, ss) && s.id !in r.signals && Merge(ids, r, s).Some?
    ensures Reflects(ids, Merge(ids, r, s).value, ss + [s])
  {
    AddSignal(ss, s);
    var n := Merge(ids, r, s).value;
    assert |n.signals| == |r.signals| + 1;
    assert n.harmful + n.helpful + n.correction == r.harmful + r.helpful + r.correction + 1;
    assert n.status == StatusOf(AnySuppresses(ss + [s]), n.harmful, n.correction);
  }

  /** In every reachable record the counts are the numbers of distinct counted signals of each kind,
      they add up to the number of distinct ids, status and anti-patterns follow from them, and the
      record is suppressed just when some counted signal asked for it. */
  lemma {:induction false} RunReflects(ids: PatternIds, ss: seq<Signal>)
    ensures Run(ids, ss).None? <==> Counted(ids, ss) == []
    ensures Run(ids, ss).Some? ==> Reflects(ids, Run(ids, ss).value, Counted(ids, ss))
  {
    if ss != [] {
      var front, s := ss[..|ss| - 1], ss[|ss| - 1];
      RunReflects(ids, front);
      var before := Run(ids, front);
      if Receive(ids, before, s).Some? && !(before.Some? && s.id in before.value.signals) {
        if before.Some? {
          MergeReflects(ids, before.value, s, Counted(ids, front));
        } else {
          FirstReflects(ids, s);
          assert Counted(ids, front) + [s] == [s];
        }
      }
    }
  }

  // ----- replays, suppression and order -----------------------------------------------------

  /** A signal id already seen changes nothing, whatever else the replay says. */
  lemma ReplayIsNoop(ids: PatternIds, ss: seq<Signal>, s: Signal)
    requires s.id in IdsOf(Counted(ids, ss))
    ensures Run(ids, ss + [s]) == Run(ids, ss)
  {
    RunReflects(ids, ss);
    var t := ss + [s];
    assert t[..|t| - 1] == ss;
  }

  /** Suppression is for good: no further signals of any kind lift it. */
  lemma {:induction false} SuppressedStays(ids: PatternIds, ss: seq<Signal>, ts: seq<Signal>)
    requires Run(ids, ss).Some? && Run(ids, ss).value.status == Suppressed
    ensures Run(ids, ss + ts).Some? && Run(ids, ss + ts).value.status == Suppressed
    decreases |ts|
  {
    if ts == [] {
      assert ss + ts == ss;
    } else {
      SuppressedStays(ids, ss, ts[..|ts| - 1]);
      assert (ss + ts)[..|ss + ts| - 1] == ss + ts[..|ts| - 1];
    }
  }

  ghost predicate SameSignals(ss: seq<Signal>, ts: seq<Signal>) { forall s :: s in ss <==> s in ts }

  /** What two records say about the same signals is the same; only confidence and time may differ. */
  predicate SameButConfidence(x: Record, y: Record) {
    && x.status == y.status && x.harmful == y.harmful && x.helpful == y.helpful && x.correction == y.correction
    && x.evidence == y.evidence && x.signals == y.signals && |x.antiPatterns| == |y.antiPatterns|
    && (forall p | p in x.antiPatterns :: exists q | q in y.antiPatterns :: q.(at := p.at) == p)
  }

  lemma ReflectsSame(ids: PatternIds, x: Record, y: Record, ss: seq<Signal>, ts: seq<Signal>)
    requires Reflects(ids, x, ss) && Reflects(ids, y, ts) && SameSignals(ss, ts)
    ensures SameButConfidence(x, y)
  {
    assert IdsOf(ss) == IdsOf(ts) && EvidenceOf(ss) == EvidenceOf(ts);
    forall k: Kind ensures IdsOfKind(ss, k) == IdsOfKind(ts, k) { }
    assert AnySuppresses(ss) <==> AnySuppresses(ts);
    SamePatterns(ids, x, y);
  }

  lemma SamePatterns(ids: PatternIds, x: Record, y: Record)
    requires x.harmful == y.harmful && x.evidence == y.evidence && x.signals == y.signals
    requires AntiPatterns(ids, x.harmful, x.evidence, x.signals, x.at) == Some(x.antiPatterns)
    requires AntiPatterns(ids, y.harmful, y.evidence, y.signals, y.at) == Some(y.antiPatterns)
    ensures |x.antiPatterns| == |y.antiPatterns|
    ensures forall p | p in x.antiPatterns :: exists q | q in y.antiPatterns :: q.(at := p.at) == p
  {
    if x.harmful > 0 {
      forall p | p in x.antiPatterns ensures exists q | q in y.antiPatterns :: q.(at := p.at) == p {
        var i := PatternIndex(ids, x.harmful, x.evidence, x.signals, x.at, 3, p);
        ReachedMembers(ids, y.harmful, y.evidence, y.signals, y.at, 3);
        assert p.(at := y.at) in y.antiPatterns;
      }
      ReachedLength(ids, x.harmful, x.evidence, x.signals, x.at);
      ReachedLength(ids, y.harmful, y.evidence, y.signals, y.at);
    }
  }

  lemma {:induction false} PatternIndex(ids: PatternIds, harmful: nat, evidence: set<int>, signals: set<int>, at: int, n: nat, p: AntiPattern) returns (i: nat)
    requires n <= |PATTERN_THRESHOLDS| && p in Reached(ids, harmful, evidence, signals, at, n)
    ensures i < n && PATTERN_THRESHOLDS[i] <= harmful
    ensures p == AntiPattern(ids(PATTERN_THRESHOLDS[i]), PATTERN_THRESHOLDS[i], i + 1, harmful, evidence, signals, at)
  {
    if n > 0 && p in Reached(ids, harmful, evidence, signals, at, n - 1) {
      i := PatternIndex(ids, harmful, evidence, signals, at, n - 1, p);
    } else {
      i := n - 1;
    }
  }

  /** Runs that count the same signals, in whatever order they came, end in the same record but for
      confidence and time. */
  lemma OrderDoesNotMatter(ids: PatternIds, ss: seq<Signal>, ts: seq<Signal>)
    requires SameSignals(Counted(ids, ss), Counted(ids, ts))
    ensures Run(ids, ss).Some? <==> Run(ids, ts).Some?
    ensures Run(ids, ss).Some? ==> SameButConfidence(Run(ids, ss).value, Run(ids, ts).value)
  {
    RunReflects(ids, ss);
    RunReflects(ids, ts);
    var x, y := Counted(ids, ss), Counted(ids, ts);
    assert x != [] ==> x[0] in y;
    assert y != [] ==> y[0] in x;
    if x != [] {
      ReflectsSame(ids, Run(ids, ss).value, Run(ids, ts).value, x, y);
    }
  }

  // ----- when every signal counts -----------------------------------------------------------

  /** Whether the lists a record of these signals would hold are within the bound that harmful
      signals bring with them. */
  predicate Fits(ss: seq<Signal>) {
    |IdsOfKind(ss, Harmful)| == 0 || (|EvidenceOf(ss)| <= MAX_LIST_ITEMS && |IdsOf(ss)| <= MAX_LIST_ITEMS)
  }

  lemma FitsPrefix(ss: seq<Signal>, n: nat)
    requires Fits(ss) && n <= |ss|
    ensures Fits(ss[..n])
  {
    var t := ss[..n];
    assert forall s | s in t :: s in ss;
    SubsetSize(EvidenceOf(t), EvidenceOf(ss)) by {
      forall e | e in EvidenceOf(t) ensures e in EvidenceOf(ss) {
        var s :| s in t && e in s.evidence;
        assert s in ss;
      }
    }
    SubsetSize(IdsOf(t), IdsOf(ss));
    SubsetSize(IdsOfKind(t, Harmful), IdsOfKind(ss, Harmful));
  }

  lemma FirstCountsIff(ids: PatternIds, s: Signal)
    ensures FirstRecord(ids, s).Some? <==> Fits([s])
  {
    assert [] + [s] == [s] && EvidenceOf([]) == {};
    AddEvidence([], s);
    assert IdsOf([s]) == {s.id};
    assert IdsOfKind([s], Harmful) == if s.kind == Harmful then {s.id} else {};
  }

  lemma NextCountsIff(ids: PatternIds, r: Record, ss: seq<Signal>, s: Signal)
    requires Reflects(ids, r, ss) && s.id !in IdsOf(ss)
    ensures Merge(ids, r, s).Some? <==> Fits(ss + [s])
  {
    AddSignal(ss, s);
  }

  /** When all signals so far count, one with a new id counts just when the lists still fit. */
  lemma CountsIff(ids: PatternIds, ss: seq<Signal>, s: Signal)
    requires Counted(ids, ss) == ss && s.id !in IdsOf(ss)
    ensures Counted(ids, ss + [s]) == (if Fits(ss + [s]) then ss + [s] else ss)
  {
    RunReflects(ids, ss);
    var t := ss + [s];
    assert t[..|t| - 1] == ss;
    if ss == [] {
      FirstCountsIff(ids, s);
      assert t == [s];
    } else {
      NextCountsIff(ids, Run(ids, ss).value, ss, s);
    }
  }

  /** Of signals with distinct ids all are counted if and only if their lists fit, so whether any is
      refused does not depend on the order either. */
  lemma {:induction false} AllCountIff(ids: PatternIds, ss: seq<Signal>)
    requires DistinctIds(ss)
    ensures Counted(ids, ss) == ss <==> Fits(ss)
  {
    if ss == [] {
      assert IdsOfKind(ss, Harmful) == {};
    } else {
      var front, s := ss[..|ss| - 1], ss[|ss| - 1];
      assert front + [s] == ss;
      AllCountIff(ids, front);
      if Counted(ids, front) == front {
        assert s.id !in IdsOf(front);
        CountsIff(ids, front, s);
      } else {
        CountedLength(ids, front);
        assert |Counted(ids, ss)| <= |Counted(ids, front)| + 1;
        assert !Fits(front);
        if Fits(ss) {
          FitsPrefix(ss, |ss| - 1);
        }
      }
    }
  }

  lemma {:induction false} CountedLength(ids: PatternIds, ss: seq<Signal>)
    ensures |Counted(ids, ss)| <= |ss|
    ensures |Counted(ids, ss)| == |ss| ==> Counted(ids, ss) == ss
  {
    if ss != [] {
      CountedLength(ids, ss[..|ss| - 1]);
      assert ss[..|ss| - 1] + [ss[|ss| - 1]] == ss;
    }
  }

  // ----- confidence over a run --------------------------------------------------------------

  lemma ConfidenceStays(confidence: real, kind: Kind, harmful: nat, severity: real)
    requires 0.0 <= confidence <= 1.0 && (kind == Harmful ==> harmful > 0)
    ensures var n := NextConfidence(confidence, kind, harmful, severity);
            && 0.0 <= n <= 1.0
            && (kind != Harmful ==> n >= confidence)
            && (kind == Harmful ==> n >= CONFIDENCE_FLOOR
                                    && (n > CONFIDENCE_FLOOR ==> n <= confidence - DecayBase(DecayStage(harmful))))
  {
  }

  /** The most that is left of a full confidence after so many harmful signals. */
  function MostLeft(harmful: nat): real {
    if harmful <= 1 then 1.0 else if harmful == 2 then 0.76 else if harmful == 3 then 0.44 else if harmful == 4 then 0.12 else CONFIDENCE_FLOOR
  }

  lemma HarmfulLeavesLess(confidence: real, harmful: nat, severity: real)
    requires 0.0 <= confidence <= MostLeft(harmful) && harmful > 0
    ensures 0.0 <= NextConfidence(confidence, Harmful, harmful + 1, severity) <= MostLeft(harmful + 1)
    ensures harmful >= 4 ==> NextConfidence(confidence, Harmful, harmful + 1, severity) == CONFIDENCE_FLOOR
  {
  }

  /** Five distinct harmful signals and no other bring any confidence down to the floor. */
  lemma {:induction false} HarmfulSignalsReachFloor(ids: PatternIds, ss: seq<Signal>)
    requires forall s | s in ss :: s.kind == Harmful
    ensures Run(ids, ss).Some? ==>
              var r := Run(ids, ss).value;
              0.0 <= r.confidence <= MostLeft(r.harmful) && r.harmful == |r.signals| > 0
              && (r.harmful >= 5 ==> r.confidence == CONFIDENCE_FLOOR)
  {
    if ss != [] {
      var front, s := ss[..|ss| - 1], ss[|ss| - 1];
      assert s in ss && forall x | x in front :: x in ss;
      HarmfulSignalsReachFloor(ids, front);
      var before := Run(ids, front);
      if before.Some? {
        HarmfulLeavesLess(before.value.confidence, before.value.harmful, s.severity);
      }
    }
  }
}
