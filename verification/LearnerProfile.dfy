/** Learner profiles: every attribute is a last-writer-wins register ordered by timestamp, then by
    the digest of the value, and keeps the lineage of its revisions.  Identity references are
    counted before repeated ones are merged, which bounds what a profile accepts. */
module LearnerProfile {
  import opened Numbers
  import opened StableSort
  import opened Timeline

  datatype Attribute = Status | ProfileConfidence | DisplayName | Email | Goals | InterestTags | MisconceptionIds | Metadata

  // An attribute's value: nothing, a single value, a sorted list without repetition, or named fields.
  datatype Value = Nothing | Single(v: int) | Names(names: set<int>) | Fields(fields: map<int, int>)

  const MAX_IDENTITY_REFS := 32
  const ACTIVE := Single(0)
  const HALF := Single(500000)

  datatype Pointer = Pointer(kind: int, source: int, id: int)
  datatype Seed = Seed(attribute: Attribute, at: int, digest: int, evidence: set<int>, policy: Option<int>)

  /** The digest of values and the ids of revisions, numbered in `localeCompare` order. */
  datatype Hashing = Hashing(digest: Value -> int, revision: Seed -> int) {
    ghost predicate Injective() {
      && (forall v: Value, w: Value :: digest(v) == digest(w) ==> v == w)
      && (forall s: Seed, t: Seed :: revision(s) == revision(t) ==> s == t)
    }
  }

  datatype Revision = Revision(id: int, seed: Seed, value: Value)
  datatype Truth = Truth(at: int, digest: int, revisionId: int)

  // One attribute of a profile: its value, what the value is known from, and its revisions.
  datatype Slot = Slot(value: Value, truth: Option<Truth>, lineage: seq<Revision>)

  // What is known of one identity reference, which is named by its namespace and value.
  datatype Identity = Identity(verified: bool, primary: bool, seenAt: Option<int>)
  type Refs = map<int, Identity>

  datatype Profile = Profile(
    id: int, learner: int, version: nat, slots: map<Attribute, Slot>, refs: Refs, evidence: set<Pointer>,
    policy: Option<int>, signals: map<int, int>, createdAt: int, updatedAt: int)

  datatype Update = Update(
    id: int, learner: int, version: nat, values: map<Attribute, Value>, provided: set<Attribute>, refs: Refs,
    evidence: set<Pointer>, policy: Option<int>, signals: map<int, int>, createdAt: int, updatedAt: int)

  predicate Complete<T>(m: map<Attribute, T>) { forall a: Attribute :: a in m }

  // ----- revisions -------------------------------------------------------------------------

  predicate Earlier(x: Revision, y: Revision) {
    x.seed.at < y.seed.at
    || (x.seed.at == y.seed.at
        && (x.seed.digest < y.seed.digest || (x.seed.digest == y.seed.digest && x.id < y.id)))
  }

  function PointerIds(evidence: set<Pointer>): set<int> { set p | p in evidence :: p.id }

  function Entry(h: Hashing, a: Attribute, value: Value, at: int, evidence: set<Pointer>, policy: Option<int>): Revision {
    var seed := Seed(a, at, h.digest(value), PointerIds(evidence), policy);
    Revision(h.revision(seed), seed, value)
  }

  predicate Recorded(s: seq<Revision>, id: int) { exists i | 0 <= i < |s| :: s[i].id == id }

  function Append(s: seq<Revision>, r: Revision): seq<Revision> {
    SortBy(if Recorded(s, r.id) then s else s + [r], Earlier)
  }

  /** In strict order, which also means that no revision is there twice. */
  ghost predicate InOrder(s: seq<Revision>) { OrderedBy(s, Earlier) }

  ghost predicate DistinctIds(s: seq<Revision>) { forall x, y | x in s && y in s && x.id == y.id :: x == y }

  lemma EarlierIsStrict()
    ensures StrictOrder(Earlier)
  {
  }

  lemma InsertRevision(s: seq<Revision>, r: Revision)
    requires InOrder(s) && DistinctIds(s) && !Recorded(s, r.id)
    ensures InOrder(InsertBy(s, r, Earlier))
    ensures |InsertBy(s, r, Earlier)| == |s| + 1 && forall x :: x in InsertBy(s, r, Earlier) <==> x in s || x == r
  {
    EarlierIsStrict();
    forall y | y in s ensures Earlier(r, y) || Earlier(y, r) {
      assert y.id != r.id;
    }
    InsertByKeepsOrder(s, r, Earlier);
    InsertByKeepsElements(s, r, Earlier);
    SameElements(InsertBy(s, r, Earlier), s, r);
  }

  lemma AppendIs(s: seq<Revision>, r: Revision)
    requires InOrder(s)
    ensures Append(s, r) == if Recorded(s, r.id) then s else InsertBy(s, r, Earlier)
  {
    EarlierIsStrict();
    SortOfOrdered(s, Earlier);
    if !Recorded(s, r.id) {
      assert (s + [r])[..|s + [r]| - 1] == s;
    }
  }

  /** Appending to a lineage keeps it in order, keeps every revision it had and adds at most the new one. */
  lemma AppendKeepsLineage(s: seq<Revision>, r: Revision)
    requires InOrder(s) && DistinctIds(s)
    ensures InOrder(Append(s, r)) && DistinctIds(Append(s, r))
    ensures forall x | x in s :: x in Append(s, r)
    ensures forall x | x in Append(s, r) :: x in s || x == r
    ensures Recorded(Append(s, r), r.id)
    ensures |Append(s, r)| == |s| + if Recorded(s, r.id) then 0 else 1
  {
    AppendIs(s, r);
    if !Recorded(s, r.id) {
      InsertRevision(s, r);
      assert r in Append(s, r);
      assert forall y | y in s :: y.id != r.id;
    }
  }

  // ----- identity references ---------------------------------------------------------------

  function Later(x: Option<int>, y: Option<int>): Option<int> {
    if x.Some? && y.Some? then Some(Max(x.value, y.value)) else if x.Some? then x else y
  }

  function SameIdentity(x: Identity, y: Identity): Identity {
    Identity(x.verified || y.verified, x.primary || y.primary, Later(x.seenAt, y.seenAt))
  }

  lemma {:induction false} HasLeast(s: set<int>)
    requires s != {}
    ensures exists k :: k in s && forall j | j in s :: k <= j
  {
    assert (forall x :: x !in s) ==> s == {};
    var x :| x in s;
    if s != {x} {
      HasLeast(s - {x});
      var k :| k in s - {x} && forall j | j in s - {x} :: k <= j;
      assert forall j | j in s :: j == x || j in s - {x};
      assert Min(x, k) in s && forall j | j in s :: Min(x, k) <= j;
    }
  }

  predicate AnyPrimary(refs: Refs) { exists k | k in refs :: refs[k].primary }

  /** When no reference is primary the first one becomes it. */
  function WithPrimary(refs: Refs): (r: Refs)
    ensures r.Keys == refs.Keys
    ensures refs != map[] ==> exists k :: k in r && r[k].primary
  {
    if refs == map[] || AnyPrimary(refs) then
      refs
    else
      HasLeast(refs.Keys);
      var first :| first in refs.Keys && forall j | j in refs.Keys :: first <= j;
      assert refs[first := refs[first].(primary := true)][first].primary;
      refs[first := refs[first].(primary := true)]
  }

  /** Repeated references become one, which is verified or primary if any of them was. */
  function MergeRefs(held: Refs, incoming: Refs): (r: Refs)
    ensures r.Keys == held.Keys + incoming.Keys
  {
    WithPrimary(BothRefs(held, incoming))
  }

  function BothRefs(held: Refs, incoming: Refs): (r: Refs)
    ensures r.Keys == held.Keys + incoming.Keys
  {
    map k | k in held.Keys + incoming.Keys ::
      if k !in held then incoming[k]
      else if k !in incoming then held[k]
      else SameIdentity(held[k], incoming[k])
  }

  // ----- merging ---------------------------------------------------------------------------

  /** How an attribute's values are combined before the registers decide. */
  function Combine(a: Attribute, held: Value, incoming: Value): Value {
    match a
    case Status => incoming
    case ProfileConfidence => incoming
    case DisplayName => if incoming != Nothing then incoming else held
    case Email => if incoming != Nothing then incoming else held
    case Metadata => Fields(FieldsOf(held) + FieldsOf(incoming))
    case _ => Names(NamesOf(held) + NamesOf(incoming))
  }

  function NamesOf(v: Value): set<int> { if v.Names? then v.names else {} }
  function FieldsOf(v: Value): map<int, int> { if v.Fields? then v.fields else map[] }

  function TruthOf(r: Revision): Truth { Truth(r.seed.at, r.seed.digest, r.id) }

  function ExistingRevision(h: Hashing, a: Attribute, p: Profile): Revision
    requires a in p.slots
  {
    var slot := p.slots[a];
    Entry(h, a, slot.value, if slot.truth.Some? then slot.truth.value.at else p.updatedAt, p.evidence, p.policy)
  }

  function IncomingRevision(h: Hashing, a: Attribute, u: Update): Revision
    requires a in u.values
  {
    Entry(h, a, u.values[a], u.updatedAt, u.evidence, u.policy)
  }

  function MergeSlot(h: Hashing, a: Attribute, p: Profile, u: Update, created: bool): Slot
    requires a in p.slots && a in u.values
  {
    var slot := p.slots[a];
    var held, incoming := ExistingRevision(h, a, p), IncomingRevision(h, a, u);
    var entries := Append(slot.lineage, held);
    if created then
      Slot(incoming.value, Some(TruthOf(incoming)), Append(entries, incoming))
    else if a in u.provided then
      var winner := if Earlier(incoming, held) then held else incoming;
      Slot(winner.value, Some(TruthOf(winner)), Append(entries, incoming))
    else
      var current := Combine(a, slot.value, u.values[a]);
      Slot(if current != Nothing then current else slot.value, Some(TruthOf(held)), entries)
  }

  /** The bounds at which the whole update fails; identity references are counted together,
      repeated ones twice. */
  predicate Fits(p: Profile, u: Update) {
    |p.evidence + u.evidence| <= MAX_LIST_ITEMS && |p.refs| + |u.refs| <= MAX_IDENTITY_REFS
  }

  function Merge(h: Hashing, p: Profile, u: Update, created: bool): (n: Profile)
    requires Complete(p.slots) && Complete(u.values)
    ensures Complete(n.slots)
  {
    Profile(p.id, u.learner, Max(p.version, u.version),
            map a | a in p.slots :: MergeSlot(h, a, p, u, created),
            MergeRefs(p.refs, u.refs), p.evidence + u.evidence,
            if u.policy.Some? then u.policy else p.policy,
            p.signals + u.signals, p.createdAt, u.updatedAt)
  }

  function EmptySeed(u: Update): (p: Profile)
    requires Complete(u.values)
    ensures Complete(p.slots)
  {
    Profile(u.id, u.learner, Max(u.version, 1),
            map a | a in u.values :: Slot(Default(a), None, []), map[], {}, None, map[], u.createdAt, u.updatedAt)
  }

  function Default(a: Attribute): Value {
    match a
    case Status => ACTIVE
    case ProfileConfidence => HALF
    case DisplayName => Nothing
    case Email => Nothing
    case Metadata => Fields(map[])
    case _ => Names({})
  }

  /** An update brings evidence or a policy exception. */
  predicate Supported(u: Update) { u.evidence != {} || u.policy.Some? }

  /** One update of the profile stored under its id, if there is one. */
  function UpdateProfile(h: Hashing, stored: Option<Profile>, u: Update): (n: Option<Profile>)
    requires Complete(u.values) && (stored.Some? ==> Complete(stored.value.slots))
    ensures n.Some? ==> Complete(n.value.slots)
  {
    if !Supported(u) || !Fits(EmptySeed(u), u) then None
    else if stored.None? then Some(Merge(h, EmptySeed(u), u, true))
    else if !Fits(stored.value, u) then None
    else Some(NextVersion(stored.value, Merge(h, stored.value, u, false)))
  }

  /** A merge that changed something gets a version of its own. */
  function NextVersion(p: Profile, merged: Profile): Profile {
    if merged == p then p else merged.(version := Max(p.version + 1, merged.version))
  }

  // ----- what an update leaves besides the attributes ----------------------------------------

  /** An update is refused exactly when it brings neither evidence nor a policy exception, or more than
      128 pieces of evidence or 32 references, by itself or on top of what is stored. */
  lemma RefusedIff(h: Hashing, stored: Option<Profile>, u: Update)
    requires Complete(u.values) && (stored.Some? ==> Complete(stored.value.slots))
    ensures UpdateProfile(h, stored, u) == None <==>
              || (u.evidence == {} && u.policy == None) || |u.evidence| > 128 || |u.refs| > 32
              || (stored.Some? && (|stored.value.evidence + u.evidence| > 128 || |stored.value.refs| + |u.refs| > 32))
  {
    assert {} + u.evidence == u.evidence;
  }

  /** An accepted update of a stored profile takes over learner and time, adds evidence and signals, and
      gets a version above the stored one, and at least its own, exactly when it changed something. */
  lemma AcceptedLeaves(h: Hashing, p: Profile, u: Update)
    requires Complete(p.slots) && Complete(u.values) && UpdateProfile(h, Some(p), u).Some?
    ensures var n := UpdateProfile(h, Some(p), u).value;
            && n.id == p.id && n.createdAt == p.createdAt && n.learner == u.learner && n.updatedAt == u.updatedAt
            && (forall e :: e in n.evidence <==> e in p.evidence || e in u.evidence)
            && n.policy == (if u.policy.None? then p.policy else u.policy)
            && n.signals.Keys == p.signals.Keys + u.signals.Keys
            && (forall k | k in n.signals :: n.signals[k] == if k in u.signals then u.signals[k] else p.signals[k])
            && (n == p || (p.version < n.version && u.version <= n.version && (n.version == p.version + 1 || n.version == u.version)))
  {
  }

  /** One that creates it starts from its own times and version. */
  lemma CreatedLeaves(h: Hashing, u: Update)
    requires Complete(u.values) && UpdateProfile(h, None, u).Some?
    ensures var n := UpdateProfile(h, None, u).value;
            && n.id == u.id && n.learner == u.learner && n.createdAt == u.createdAt && n.updatedAt == u.updatedAt
            && n.version == (if u.version == 0 then 1 else u.version)
            && n.evidence == u.evidence && n.policy == u.policy && n.signals == u.signals && n.refs.Keys == u.refs.Keys
            && forall a: Attribute :: n.slots[a].value == u.values[a]
  {
    var none: map<int, int> := map[];
    assert none + u.signals == u.signals;
  }

  /** A merged reference is verified if either was and was last seen at the later time; it is primary if
      either was, and when none is the first becomes it. */
  lemma MergedRef(held: Refs, incoming: Refs, k: int)
    requires k in held || k in incoming
    ensures var r := MergeRefs(held, incoming)[k];
            var old_, new_ := if k in held then Some(held[k]) else None, if k in incoming then Some(incoming[k]) else None;
            && (r.verified <==> (old_.Some? && old_.value.verified) || (new_.Some? && new_.value.verified))
            && (AnyPrimary(held) || AnyPrimary(incoming) ==>
                  (r.primary <==> (old_.Some? && old_.value.primary) || (new_.Some? && new_.value.primary)))
            && (!AnyPrimary(held) && !AnyPrimary(incoming) ==>
                  (r.primary <==> forall j | j in held || j in incoming :: k <= j))
            && (forall t :: r.seenAt == Some(t) ==> SeenAt(old_, t) || SeenAt(new_, t))
            && (forall t :: SeenAt(old_, t) || SeenAt(new_, t) ==> r.seenAt.Some? && t <= r.seenAt.value)
  {
    PrimaryOfBoth(held, incoming);
  }

  lemma PrimaryOfBoth(held: Refs, incoming: Refs)
    ensures AnyPrimary(BothRefs(held, incoming)) <==> AnyPrimary(held) || AnyPrimary(incoming)
  {
    var both := BothRefs(held, incoming);
    if j :| j in held && held[j].primary {
      assert both[j].primary;
    }
    if j :| j in incoming && incoming[j].primary {
      assert both[j].primary;
    }
    if j :| j in both && both[j].primary {
      assert (j in held && held[j].primary) || (j in incoming && incoming[j].primary);
    }
  }

  predicate SeenAt(i: Option<Identity>, t: int) { i.Some? && i.value.seenAt == Some(t) }

  // ----- what an update keeps --------------------------------------------------------------

  ghost predicate SoundLineage(h: Hashing, a: Attribute, s: seq<Revision>) {
    && InOrder(s) && DistinctIds(s)
    && forall r | r in s :: Genuine(h, a, r)
  }

  ghost predicate Genuine(h: Hashing, a: Attribute, r: Revision) {
    r.seed.attribute == a && r.id == h.revision(r.seed) && r.seed.digest == h.digest(r.value)
  }

  ghost predicate SoundSlot(h: Hashing, a: Attribute, slot: Slot) {
    SoundLineage(h, a, slot.lineage) && (slot.truth.Some? ==> Recorded(slot.lineage, slot.truth.value.revisionId))
  }

  ghost predicate Within(s: seq<Revision>, t: seq<Revision>) { forall r | r in s :: r in t }

  ghost predicate Sound(h: Hashing, p: Profile)
    requires Complete(p.slots)
  {
    forall a: Attribute :: SoundSlot(h, a, p.slots[a])
  }

  lemma AppendKeepsSound(h: Hashing, a: Attribute, s: seq<Revision>, r: Revision)
    requires SoundLineage(h, a, s) && Genuine(h, a, r)
    ensures SoundLineage(h, a, Append(s, r)) && Within(s, Append(s, r)) && Recorded(Append(s, r), r.id)
  {
    AppendKeepsLineage(s, r);
  }

  lemma RecordedStays(s: seq<Revision>, t: seq<Revision>, id: int)
    requires Recorded(s, id) && Within(s, t)
    ensures Recorded(t, id)
  {
    var i :| 0 <= i < |s| && s[i].id == id;
    assert s[i] in t;
  }

  ghost predicate Extends(h: Hashing, a: Attribute, s: seq<Revision>, t: seq<Revision>) {
    SoundLineage(h, a, t) && Within(s, t)
  }

  lemma AppendBoth(h: Hashing, a: Attribute, s: seq<Revision>, x: Revision, y: Revision)
    requires SoundLineage(h, a, s) && Genuine(h, a, x) && Genuine(h, a, y)
    ensures Extends(h, a, s, Append(s, x)) && Recorded(Append(s, x), x.id)
    ensures Extends(h, a, s, Append(Append(s, x), y))
    ensures Recorded(Append(Append(s, x), y), x.id) && Recorded(Append(Append(s, x), y), y.id)
  {
    AppendKeepsSound(h, a, s, x);
    AppendKeepsSound(h, a, Append(s, x), y);
    RecordedStays(Append(s, x), Append(Append(s, x), y), x.id);
  }

  /** The lineage of an attribute only grows, stays in order without repetition, and always holds the
      revision its value is known from. */
  lemma MergeSlotKeepsLineage(h: Hashing, a: Attribute, p: Profile, u: Update, created: bool)
    requires a in p.slots && a in u.values && SoundSlot(h, a, p.slots[a])
    ensures SoundSlot(h, a, MergeSlot(h, a, p, u, created))
    ensures Within(p.slots[a].lineage, MergeSlot(h, a, p, u, created).lineage)
    ensures MergeSlot(h, a, p, u, created).truth.Some?
  {
    var held, incoming := ExistingRevision(h, a, p), IncomingRevision(h, a, u);
    var entries := Append(p.slots[a].lineage, held);
    var slot := MergeSlot(h, a, p, u, created);
    AppendBoth(h, a, p.slots[a].lineage, held, incoming);
    assert slot.lineage == entries || slot.lineage == Append(entries, incoming);
    assert slot.truth == Some(TruthOf(held))
           || (slot.truth == Some(TruthOf(incoming)) && slot.lineage == Append(entries, incoming));
  }

  function Held(stored: Option<Profile>, u: Update): (p: Profile)
    requires Complete(u.values) && (stored.Some? ==> Complete(stored.value.slots))
    ensures Complete(p.slots)
  {
    if stored.Some? then stored.value else EmptySeed(u)
  }

  /** Each part of a profile after a merge. */
  ghost predicate MergedFrom(h: Hashing, p: Profile, u: Update, created: bool, n: Profile)
    requires Complete(p.slots) && Complete(u.values)
  {
    && Complete(n.slots) && n.id == p.id && n.evidence == p.evidence + u.evidence
    && n.refs.Keys == p.refs.Keys + u.refs.Keys
    && forall a: Attribute :: n.slots[a] == MergeSlot(h, a, p, u, created)
  }

  lemma MergeOutcome(h: Hashing, p: Profile, u: Update, created: bool)
    requires Complete(p.slots) && Complete(u.values)
    ensures MergedFrom(h, p, u, created, Merge(h, p, u, created))
    ensures MergedFrom(h, p, u, created, NextVersion(p, Merge(h, p, u, created)))
  {
  }

  /** What a caller can check before an update. */
  predicate Acceptable(p: Profile, u: Update) {
    Supported(u) && |u.evidence| <= MAX_LIST_ITEMS && Fits(p, u)
  }

  lemma FitsAlone(p: Profile, u: Update)
    requires Complete(u.values)
    ensures Fits(EmptySeed(u), u) <==> |u.evidence| <= MAX_LIST_ITEMS && |u.refs| <= MAX_IDENTITY_REFS
  {
    assert {} + u.evidence == u.evidence;
  }

  /** When an update is accepted, and what it does to each part. */
  lemma UpdateOutcome(h: Hashing, stored: Option<Profile>, u: Update)
    requires Complete(u.values) && (stored.Some? ==> Complete(stored.value.slots))
    ensures UpdateProfile(h, stored, u).Some? <==> Acceptable(Held(stored, u), u)
    ensures var n := UpdateProfile(h, stored, u);
            n.Some? ==> MergedFrom(h, Held(stored, u), u, stored.None?, n.value)
  {
    FitsAlone(Held(stored, u), u);
    MergeOutcome(h, Held(stored, u), u, stored.None?);
  }

  /** A whole update does so for every attribute of the profile. */
  lemma UpdateKeepsLineage(h: Hashing, stored: Option<Profile>, u: Update)
    requires Complete(u.values) && (stored.Some? ==> Complete(stored.value.slots) && Sound(h, stored.value))
    requires UpdateProfile(h, stored, u).Some?
    ensures var n := UpdateProfile(h, stored, u).value;
            Complete(n.slots) && Sound(h, n)
            && (stored.Some? ==> forall a: Attribute :: Within(stored.value.slots[a].lineage, n.slots[a].lineage))
  {
    var n := UpdateProfile(h, stored, u).value;
    UpdateOutcome(h, stored, u);
    forall a: Attribute
      ensures a in n.slots && SoundSlot(h, a, n.slots[a])
      ensures Within(Held(stored, u).slots[a].lineage, n.slots[a].lineage)
    {
      MergeSlotKeepsLineage(h, a, Held(stored, u), u, stored.None?);
    }
  }

  // ----- last writer wins ------------------------------------------------------------------

  // What an update submits for an attribute.
  datatype Stamp = Stamp(at: int, digest: int)

  predicate AtMost(x: Stamp, y: Stamp) { x.at < y.at || (x.at == y.at && x.digest <= y.digest) }

  function Submitted(h: Hashing, a: Attribute, u: Update): Stamp
    requires a in u.values
  {
    Stamp(u.updatedAt, h.digest(u.values[a]))
  }

  predicate AllComplete(us: seq<Update>) { forall u | u in us :: Complete(u.values) }

  /** What is stored after some updates of one profile; a refused one changes nothing. */
  function Run(h: Hashing, us: seq<Update>): (p: Option<Profile>)
    requires AllComplete(us)
    ensures p.Some? ==> Complete(p.value.slots)
  {
    if us == [] then None
    else
      var before := Run(h, us[..|us| - 1]);
      var after := UpdateProfile(h, before, us[|us| - 1]);
      if after.None? then before else after
  }

  /** Every lineage is in order and without repetition. */
  ghost predicate SoundIfAny(h: Hashing, p: Option<Profile>)
    requires p.Some? ==> Complete(p.value.slots)
  {
    p.Some? ==> Sound(h, p.value)
  }

  /** What lineages held once they still hold. */
  ghost predicate Kept(p: Option<Profile>, q: Option<Profile>)
    requires (p.Some? ==> Complete(p.value.slots)) && (q.Some? ==> Complete(q.value.slots))
  {
    p.Some? ==> q.Some? && forall a: Attribute :: Within(p.value.slots[a].lineage, q.value.slots[a].lineage)
  }

  lemma UpdateKeepsAll(h: Hashing, p: Option<Profile>, stored: Option<Profile>, u: Update)
    requires Complete(u.values) && (stored.Some? ==> Complete(stored.value.slots)) && (p.Some? ==> Complete(p.value.slots))
    requires SoundIfAny(h, stored) && Kept(p, stored) && UpdateProfile(h, stored, u).Some?
    ensures var n := UpdateProfile(h, stored, u); Complete(n.value.slots) && SoundIfAny(h, n) && Kept(p, n)
  {
    UpdateKeepsLineage(h, stored, u);
    var n := UpdateProfile(h, stored, u);
    if p.Some? {
      forall a: Attribute ensures Within(p.value.slots[a].lineage, n.value.slots[a].lineage) {
        assert Within(p.value.slots[a].lineage, stored.value.slots[a].lineage);
      }
    }
  }

  /** Over any run every lineage is in order and without repetition, and what it ever held it keeps. */
  lemma {:induction false} RunKeepsLineage(h: Hashing, us: seq<Update>, n: nat)
    requires AllComplete(us) && n <= |us| && AllComplete(us[..n])
    ensures SoundIfAny(h, Run(h, us)) && Kept(Run(h, us[..n]), Run(h, us))
  {
    if us != [] {
      var front, u := us[..|us| - 1], us[|us| - 1];
      assert u in us && forall v | v in front :: v in us;
      RunKeepsLineage(h, front, if n < |us| then n else n - 1);
      var p := if n < |us| then Run(h, us[..n]) else None;
      assert n < |us| ==> front[..n] == us[..n];
      if UpdateProfile(h, Run(h, front), u).Some? {
        UpdateKeepsAll(h, p, Run(h, front), u);
      }
      assert n == |us| ==> us[..n] == us;
    }
  }

  /** The updates of a run that were not refused. */
  function Accepted(h: Hashing, us: seq<Update>): (r: seq<Update>)
    requires AllComplete(us)
    ensures forall u | u in r :: u in us
  {
    if us == [] then []
    else
      var before := Accepted(h, us[..|us| - 1]);
      if UpdateProfile(h, Run(h, us[..|us| - 1]), us[|us| - 1]).None? then before else before + [us[|us| - 1]]
  }

  /** The stored value is that of the greatest stamp submitted. */
  ghost predicate HoldsGreatest(h: Hashing, a: Attribute, slot: Slot, us: seq<Update>)
    requires AllComplete(us)
  {
    slot.truth.Some?
    && var held := Stamp(slot.truth.value.at, slot.truth.value.digest);
       held.digest == h.digest(slot.value)
       && (exists u | u in us :: Submitted(h, a, u) == held)
       && (forall u | u in us :: AtMost(Submitted(h, a, u), held))
  }

  /** The updates that decide an attribute: the first, which creates the profile, and from then on
      those that supply the attribute. */
  function Deciding(a: Attribute, us: seq<Update>): (r: seq<Update>)
    ensures forall u | u in r :: u in us
    ensures us != [] ==> r != []
  {
    if us == [] then []
    else
      var front, last := Deciding(a, us[..|us| - 1]), us[|us| - 1];
      if |us| == 1 || a in last.provided then front + [last] else front
  }

  /** The kinds of value each attribute takes. */
  predicate HasShape(a: Attribute, v: Value) {
    match a
    case Status => v.Single?
    case ProfileConfidence => v.Single?
    case DisplayName => v.Single? || v.Nothing?
    case Email => v.Single? || v.Nothing?
    case Metadata => v.Fields?
    case _ => v.Names?
  }

  /** An update that leaves these two out overwrites them all the same. */
  predicate AlwaysOverwritten(a: Attribute) { a == Status || a == ProfileConfidence }

  /** The update supplies the attribute, or leaves it out and so carries the default. */
  predicate SuppliesOrOmits(a: Attribute, u: Update)
    requires a in u.values
  {
    HasShape(a, u.values[a]) && (a in u.provided || (!AlwaysOverwritten(a) && u.values[a] == Default(a)))
  }

  lemma MergeSlotTakesGreater(h: Hashing, a: Attribute, p: Profile, u: Update, us: seq<Update>)
    requires a in p.slots && Complete(u.values) && a in u.provided && AllComplete(us) && AllComplete(us + [u])
    requires HoldsGreatest(h, a, p.slots[a], us)
    ensures HoldsGreatest(h, a, MergeSlot(h, a, p, u, false), us + [u])
  {
    var slot := p.slots[a];
    var held, incoming := ExistingRevision(h, a, p), IncomingRevision(h, a, u);
    assert Submitted(h, a, u) == Stamp(incoming.seed.at, incoming.seed.digest);
    assert Stamp(held.seed.at, held.seed.digest) == Stamp(slot.truth.value.at, slot.truth.value.digest);
    var v :| v in us && Submitted(h, a, v) == Stamp(held.seed.at, held.seed.digest);
    assert v in us + [u] && u in us + [u];
  }

  lemma FirstSlotHoldsIt(h: Hashing, a: Attribute, p: Profile, u: Update)
    requires a in p.slots && Complete(u.values) && AllComplete([u])
    ensures HoldsGreatest(h, a, MergeSlot(h, a, p, u, true), [u])
  {
    assert u in [u];
  }

  lemma OmittedStays(h: Hashing, a: Attribute, p: Profile, u: Update)
    requires a in p.slots && a in u.values && a !in u.provided && SuppliesOrOmits(a, u)
    requires HasShape(a, p.slots[a].value) && TruthMatches(h, p.slots[a])
    ensures Agree(p.slots[a], MergeSlot(h, a, p, u, false))
  {
    var v := p.slots[a].value;
    assert v.Names? ==> v.names + {} == v.names;
    assert v.Fields? ==> v.fields + map[] == v.fields;
  }

  /** The attribute has its shape and is decided by the greatest stamp. */
  ghost predicate Decided(h: Hashing, a: Attribute, slot: Slot, accepted: seq<Update>)
    requires AllComplete(accepted)
  {
    HasShape(a, slot.value) && HoldsGreatest(h, a, slot, Deciding(a, accepted))
  }

  lemma CreationDecides(h: Hashing, a: Attribute, p: Profile, u: Update)
    requires a in p.slots && Complete(u.values) && SuppliesOrOmits(a, u) && AllComplete([u])
    ensures Decided(h, a, MergeSlot(h, a, p, u, true), [u])
  {
    FirstSlotHoldsIt(h, a, p, u);
    assert Deciding(a, [u]) == [u];
  }

  lemma MergeKeepsDecided(h: Hashing, a: Attribute, p: Profile, u: Update, us: seq<Update>)
    requires a in p.slots && Complete(u.values) && SuppliesOrOmits(a, u) && AllComplete(us) && AllComplete(us + [u])
    requires us != [] && Decided(h, a, p.slots[a], us)
    ensures Decided(h, a, MergeSlot(h, a, p, u, false), us + [u])
  {
    assert (us + [u])[..|us|] == us;
    if a in u.provided {
      MergeSlotTakesGreater(h, a, p, u, Deciding(a, us));
    } else {
      OmittedStays(h, a, p, u);
    }
  }

  /** Over any run the value of an attribute is that of the greatest timestamp and digest submitted,
      by the update that created the profile or one that supplied the attribute. */
  lemma {:induction false} LastWriterWins(h: Hashing, a: Attribute, us: seq<Update>)
    requires AllComplete(us) && forall u | u in us :: SuppliesOrOmits(a, u)
    ensures Accepted(h, us) == [] <==> Run(h, us).None?
    ensures Run(h, us).Some? ==> Decided(h, a, Run(h, us).value.slots[a], Accepted(h, us))
  {
    if us != [] {
      var front, u := us[..|us| - 1], us[|us| - 1];
      assert u in us && forall v | v in front :: v in us;
      LastWriterWins(h, a, front);
      var stored := Run(h, front);
      UpdateOutcome(h, stored, u);
      if UpdateProfile(h, stored, u).Some? {
        if stored.Some? {
          MergeKeepsDecided(h, a, stored.value, u, Accepted(h, front));
        } else {
          CreationDecides(h, a, EmptySeed(u), u);
        }
      }
    }
  }

  /** The same value, known from a revision of the same time and digest. */
  predicate Agree(x: Slot, y: Slot) {
    x.value == y.value && x.truth.Some? && y.truth.Some?
    && x.truth.value.at == y.truth.value.at && x.truth.value.digest == y.truth.value.digest
  }

  /** Both profiles or neither, with the same value of the attribute. */
  ghost predicate AgreeOn(a: Attribute, p: Option<Profile>, q: Option<Profile>)
    requires (p.Some? ==> Complete(p.value.slots)) && (q.Some? ==> Complete(q.value.slots))
  {
    (p.Some? <==> q.Some?) && (p.Some? ==> Agree(p.value.slots[a], q.value.slots[a]))
  }

  ghost predicate SameMembers<T(!new)>(s: seq<T>, t: seq<T>) { forall x :: x in s <==> x in t }

  lemma SameEmptiness<T(!new)>(s: seq<T>, t: seq<T>)
    requires SameMembers(s, t)
    ensures s == [] <==> t == []
  {
    assert s != [] ==> s[0] in t;
    assert t != [] ==> t[0] in s;
  }

  /** So two runs that are decided by the same updates, in whatever order, store the same value. */
  lemma OrderDoesNotMatter(h: Hashing, a: Attribute, us: seq<Update>, vs: seq<Update>)
    requires h.Injective() && AllComplete(us) && AllComplete(vs)
    requires (forall u | u in us :: SuppliesOrOmits(a, u)) && (forall v | v in vs :: SuppliesOrOmits(a, v))
    requires SameMembers(Deciding(a, Accepted(h, us)), Deciding(a, Accepted(h, vs)))
    ensures AgreeOn(a, Run(h, us), Run(h, vs))
  {
    var x, y := Deciding(a, Accepted(h, us)), Deciding(a, Accepted(h, vs));
    LastWriterWins(h, a, us);
    LastWriterWins(h, a, vs);
    SameEmptiness(x, y);
    SameDecision(h, a, Run(h, us), Run(h, vs), x, y);
  }

  ghost predicate DecidedProfile(h: Hashing, a: Attribute, p: Option<Profile>, us: seq<Update>)
    requires (p.Some? ==> Complete(p.value.slots)) && AllComplete(us)
  {
    (p.Some? <==> us != []) && (p.Some? ==> HoldsGreatest(h, a, p.value.slots[a], us))
  }

  lemma SameDecision(h: Hashing, a: Attribute, p: Option<Profile>, q: Option<Profile>, us: seq<Update>, vs: seq<Update>)
    requires (p.Some? ==> Complete(p.value.slots)) && (q.Some? ==> Complete(q.value.slots))
    requires h.Injective() && AllComplete(us) && AllComplete(vs) && SameMembers(us, vs)
    requires DecidedProfile(h, a, p, us) && DecidedProfile(h, a, q, vs)
    ensures AgreeOn(a, p, q)
  {
    SameEmptiness(us, vs);
    if p.Some? {
      SameGreatest(h, a, p.value.slots[a], q.value.slots[a], us, vs);
    }
  }

  lemma SameGreatest(h: Hashing, a: Attribute, x: Slot, y: Slot, us: seq<Update>, vs: seq<Update>)
    requires h.Injective() && AllComplete(us) && AllComplete(vs) && HoldsGreatest(h, a, x, us) && HoldsGreatest(h, a, y, vs)
    requires SameMembers(us, vs)
    ensures Agree(x, y)
  {
  }

  /** Which update creates the profile matters: one that leaves the attribute out then submits the
      default.  The two orders of such an update and one that supplies another value agree exactly
      when the supplied stamp is not the earlier. */
  lemma CreatorLeavesOutIff(h: Hashing, a: Attribute, u: Update, v: Update)
    requires h.Injective() && AllComplete([u, v]) && u.id == v.id && SuppliesOrOmits(a, u) && SuppliesOrOmits(a, v)
    requires a !in u.provided && a in v.provided && v.values[a] != Default(a)
    requires Accepted(h, [u, v]) == [u, v] && Accepted(h, [v, u]) == [v, u]
    ensures Run(h, [u, v]).Some? && Run(h, [v, u]).Some?
    ensures Agree(Run(h, [u, v]).value.slots[a], Run(h, [v, u]).value.slots[a])
            <==> AtMost(Submitted(h, a, u), Submitted(h, a, v))
  {
    assert AllComplete([v, u]) by { assert [u, v][0] == u && [u, v][1] == v; }
    LastWriterWins(h, a, [u, v]);
    LastWriterWins(h, a, [v, u]);
    DecidingOfTwo(a, u, v);
    DecidingOfTwo(a, v, u);
    TwoOrders(h, a, Run(h, [u, v]).value.slots[a], Run(h, [v, u]).value.slots[a], u, v);
  }

  lemma TwoOrders(h: Hashing, a: Attribute, x: Slot, y: Slot, u: Update, v: Update)
    requires h.Injective() && AllComplete([u, v]) && AllComplete([v]) && a in u.values && a in v.values
    requires HoldsGreatest(h, a, x, [u, v]) && HoldsGreatest(h, a, y, [v]) && u.values[a] != v.values[a]
    ensures Agree(x, y) <==> AtMost(Submitted(h, a, u), Submitted(h, a, v))
  {
    assert u in [u, v] && v in [u, v] && v in [v];
  }

  lemma DecidingOfTwo(a: Attribute, u: Update, v: Update)
    ensures Deciding(a, [u, v]) == if a in v.provided then [u, v] else [u]
  {
    assert [u, v][..1] == [u] && Deciding(a, [u]) == [u];
  }

  // ----- when nothing is refused -----------------------------------------------------------

  function AllEvidence(us: seq<Update>): set<Pointer> {
    if us == [] then {} else AllEvidence(us[..|us| - 1]) + us[|us| - 1].evidence
  }

  function AllRefs(us: seq<Update>): set<int> {
    if us == [] then {} else AllRefs(us[..|us| - 1]) + us[|us| - 1].refs.Keys
  }

  /** Each update's references fit on top of all those before it. */
  predicate RefsFit(us: seq<Update>) {
    us == [] || (RefsFit(us[..|us| - 1]) && |AllRefs(us[..|us| - 1])| + |us[|us| - 1].refs| <= MAX_IDENTITY_REFS)
  }

  ghost predicate AllSupported(us: seq<Update>) { forall u | u in us :: Supported(u) }

  /** Evidence and references of the stored profile are those of these updates. */
  ghost predicate Collected(stored: Option<Profile>, us: seq<Update>) {
    if stored.Some? then stored.value.evidence == AllEvidence(us) && stored.value.refs.Keys == AllRefs(us) else us == []
  }

  lemma AcceptableAfter(h: Hashing, stored: Option<Profile>, u: Update, front: seq<Update>)
    requires Complete(u.values) && (stored.Some? ==> Complete(stored.value.slots)) && Collected(stored, front)
    ensures UpdateProfile(h, stored, u).Some? <==>
              && Supported(u) && |AllEvidence(front + [u])| <= MAX_LIST_ITEMS
              && |AllRefs(front)| + |u.refs| <= MAX_IDENTITY_REFS
    ensures UpdateProfile(h, stored, u).Some? ==> Collected(UpdateProfile(h, stored, u), front + [u])
  {
    UpdateOutcome(h, stored, u);
    var p := Held(stored, u);
    assert (front + [u])[..|front|] == front;
    assert p.evidence == AllEvidence(front) && p.refs.Keys == AllRefs(front);
    assert |p.refs| == |p.refs.Keys|;
    SubsetSize(u.evidence, p.evidence + u.evidence);
  }

  lemma {:induction false} AcceptedAtMost(h: Hashing, us: seq<Update>)
    requires AllComplete(us)
    ensures |Accepted(h, us)| <= |us|
  {
    if us != [] {
      assert forall v | v in us[..|us| - 1] :: v in us;
      AcceptedAtMost(h, us[..|us| - 1]);
    }
  }

  ghost predicate AllFit(us: seq<Update>) {
    AllSupported(us) && |AllEvidence(us)| <= MAX_LIST_ITEMS && RefsFit(us)
  }

  lemma AllFitSnoc(front: seq<Update>, u: Update)
    ensures AllFit(front + [u]) <==>
              && AllFit(front) && Supported(u) && |AllEvidence(front + [u])| <= MAX_LIST_ITEMS
              && |AllRefs(front)| + |u.refs| <= MAX_IDENTITY_REFS
  {
    TotalsSnoc(front, u);
    SubsetSize(AllEvidence(front), AllEvidence(front + [u]));
    assert AllSupported(front + [u]) <==> AllSupported(front) && Supported(u);
  }

  lemma AcceptedSnoc(h: Hashing, front: seq<Update>, u: Update)
    requires AllComplete(front) && AllComplete(front + [u])
    ensures var after := UpdateProfile(h, Run(h, front), u);
            && Accepted(h, front + [u]) == (if after.None? then Accepted(h, front) else Accepted(h, front) + [u])
            && Run(h, front + [u]) == if after.None? then Run(h, front) else after
  {
    assert (front + [u])[..|front|] == front;
    assert u in front + [u];
  }

  /** In a given order nothing is refused exactly when each update brings evidence or a policy
      exception, all the evidence together is within its bound, and each update's references fit on
      top of those before it. */
  lemma {:induction false} NothingRefusedIff(h: Hashing, us: seq<Update>)
    requires AllComplete(us)
    ensures Accepted(h, us) == us <==> AllFit(us)
    ensures Accepted(h, us) == us ==> Collected(Run(h, us), us)
  {
    if us != [] {
      var front, u := us[..|us| - 1], us[|us| - 1];
      assert u in us && forall v | v in front :: v in us;
      assert front + [u] == us;
      NothingRefusedIff(h, front);
      AllFitSnoc(front, u);
      AcceptedSnoc(h, front, u);
      if Accepted(h, front) == front {
        AcceptableAfter(h, Run(h, front), u, front);
      } else {
        LastAccepted(h, us);
      }
    }
  }

  lemma LastAccepted(h: Hashing, us: seq<Update>)
    requires us != [] && AllComplete(us) && AllComplete(us[..|us| - 1]) && Accepted(h, us[..|us| - 1]) != us[..|us| - 1]
    ensures Accepted(h, us) != us
  {
    var front, u := us[..|us| - 1], us[|us| - 1];
    AcceptedAtMost(h, front);
    if Accepted(h, us) == Accepted(h, front) + [u] {
      assert (Accepted(h, front) + [u])[..|Accepted(h, front)|] == Accepted(h, front);
    }
  }

  lemma TotalsSnoc(us: seq<Update>, u: Update)
    ensures AllRefs(us + [u]) == AllRefs(us) + u.refs.Keys && AllEvidence(us + [u]) == AllEvidence(us) + u.evidence
    ensures RefsFit(us + [u]) <==> RefsFit(us) && |AllRefs(us)| + |u.refs| <= MAX_IDENTITY_REFS
  {
    assert (us + [u])[..|us|] == us;
  }

  lemma RefsOfThree(u: Update, v: Update, w: Update)
    ensures AllRefs([u, v, w]) == u.refs.Keys + v.refs.Keys + w.refs.Keys
    ensures AllEvidence([u, v, w]) == u.evidence + v.evidence + w.evidence
    ensures RefsFit([u, v, w]) <==>
              && |u.refs| <= MAX_IDENTITY_REFS && |u.refs.Keys| + |v.refs| <= MAX_IDENTITY_REFS
              && |u.refs.Keys + v.refs.Keys| + |w.refs| <= MAX_IDENTITY_REFS
  {
    TotalsSnoc([], u);
    TotalsSnoc([u], v);
    TotalsSnoc([u, v], w);
    assert [] + [u] == [u] && [u] + [v] == [u, v] && [u, v] + [w] == [u, v, w];
  }

  /** So the order decides whether updates are accepted: two that bring the same references are fine
      before a third with others, and not after it, when any two lists fit together but not all three. */
  lemma OrderDecidesAcceptance(h: Hashing, u: Update, v: Update, w: Update)
    requires AllComplete([u, v, w]) && AllComplete([w, u, v]) && AllSupported([u, v, w])
    requires |u.evidence + v.evidence + w.evidence| <= MAX_LIST_ITEMS
    requires u.refs.Keys == v.refs.Keys && u.refs.Keys !! w.refs.Keys
    requires 2 * |u.refs| <= MAX_IDENTITY_REFS && |u.refs| + |w.refs| <= MAX_IDENTITY_REFS < 2 * |u.refs| + |w.refs|
    ensures Accepted(h, [u, v, w]) == [u, v, w] && Accepted(h, [w, u, v]) != [w, u, v]
  {
    RefsOfThree(u, v, w);
    RefsOfThree(w, u, v);
    assert |u.refs.Keys| == |u.refs| && |v.refs.Keys| == |v.refs| && |w.refs.Keys| == |w.refs|;
    assert u.refs.Keys + v.refs.Keys == u.refs.Keys;
    assert |w.refs.Keys + u.refs.Keys| == |w.refs.Keys| + |u.refs.Keys|;
    NothingRefusedIff(h, [u, v, w]);
    NothingRefusedIff(h, [w, u, v]);
  }

  lemma {:induction false} AllRefsMembers(us: seq<Update>)
    ensures forall k :: k in AllRefs(us) <==> exists u :: u in us && k in u.refs
    ensures forall e :: e in AllEvidence(us) <==> exists u :: u in us && e in u.evidence
  {
    if us != [] {
      assert us == us[..|us| - 1] + [us[|us| - 1]];
      AllRefsMembers(us[..|us| - 1]);
    }
  }

  /** All the references and any one update's fit together, so they do in every order. */
  predicate RefsFitAnyOrder(us: seq<Update>) {
    forall u | u in us :: |AllRefs(us)| + |u.refs| <= MAX_IDENTITY_REFS
  }

  ghost predicate FitAnyOrder(us: seq<Update>) {
    AllSupported(us) && |AllEvidence(us)| <= MAX_LIST_ITEMS && RefsFitAnyOrder(us)
  }

  lemma {:induction false} PrefixRefsFit(us: seq<Update>, n: nat)
    requires RefsFitAnyOrder(us) && n <= |us|
    ensures RefsFit(us[..n])
  {
    if n > 0 {
      assert us[..n][..n - 1] == us[..n - 1] && us[n - 1] in us;
      PrefixRefsFit(us, n - 1);
      assert forall u | u in us[..n - 1] :: u in us;
      TotalsWithin(us[..n - 1], us);
      SubsetSize(AllRefs(us[..n - 1]), AllRefs(us));
    }
  }

  /** Whatever the order, nothing is refused when each update brings evidence or a policy exception
      and evidence and references are within their bounds, the latter with room to spare for the
      largest update. */
  lemma NothingRefused(h: Hashing, us: seq<Update>)
    requires AllComplete(us) && FitAnyOrder(us)
    ensures Accepted(h, us) == us
  {
    PrefixRefsFit(us, |us|);
    assert us[..|us|] == us;
    NothingRefusedIff(h, us);
  }

  lemma TotalsWithin(us: seq<Update>, vs: seq<Update>)
    requires forall u | u in us :: u in vs
    ensures AllRefs(us) <= AllRefs(vs) && AllEvidence(us) <= AllEvidence(vs)
  {
    AllRefsMembers(us);
    AllRefsMembers(vs);
    forall k | k in AllRefs(us) ensures k in AllRefs(vs) {
      var u :| u in us && k in u.refs;
    }
    forall e | e in AllEvidence(us) ensures e in AllEvidence(vs) {
      var u :| u in us && e in u.evidence;
    }
  }

  lemma SameTotals(us: seq<Update>, vs: seq<Update>)
    requires SameMembers(us, vs)
    ensures AllRefs(us) == AllRefs(vs) && AllEvidence(us) == AllEvidence(vs)
    ensures AllSupported(us) ==> AllSupported(vs)
    ensures RefsFitAnyOrder(us) ==> RefsFitAnyOrder(vs)
  {
    TotalsWithin(us, vs);
    TotalsWithin(vs, us);
  }

  /** No run with these updates, and no others, refuses any of them. */
  ghost predicate AcceptedInEveryRun(h: Hashing, us: seq<Update>) {
    forall vs | AllComplete(vs) && SameMembers(us, vs) :: Accepted(h, vs) == vs
  }

  /** That is so exactly under these conditions, which do not depend on the order: an update may come
      after all of them, itself included. */
  lemma NothingRefusedInAnyRunIff(h: Hashing, us: seq<Update>)
    requires AllComplete(us)
    ensures AcceptedInEveryRun(h, us) <==>
              FitAnyOrder(us)
  {
    if AcceptedInEveryRun(h, us) {
      assert SameMembers(us, us);
      NothingRefusedIff(h, us);
      forall u | u in us ensures |AllRefs(us)| + |u.refs| <= MAX_IDENTITY_REFS {
        OnceMoreFits(h, us, u);
      }
    }
    if FitAnyOrder(us) {
      forall vs | AllComplete(vs) && SameMembers(us, vs) ensures Accepted(h, vs) == vs {
        SameTotals(us, vs);
        NothingRefused(h, vs);
      }
    }
  }

  lemma OnceMoreFits(h: Hashing, us: seq<Update>, u: Update)
    requires AllComplete(us) && u in us && AcceptedInEveryRun(h, us)
    ensures |AllRefs(us)| + |u.refs| <= MAX_IDENTITY_REFS
  {
    var vs := us + [u];
    assert AllComplete(vs) && SameMembers(us, vs);
    NothingRefusedIff(h, vs);
    TotalsSnoc(us, u);
  }

  lemma DecidedByAll(h: Hashing, a: Attribute, us: seq<Update>)
    requires AllComplete(us) && forall u | u in us :: a in u.provided && HasShape(a, u.values[a])
    requires FitAnyOrder(us)
    ensures DecidedProfile(h, a, Run(h, us), us)
  {
    NothingRefused(h, us);
    AllDeciding(a, us);
    LastWriterWins(h, a, us);
  }

  /** Such updates, when each supplies the attribute, store the same value in every order. */
  lemma EveryOrderAgrees(h: Hashing, a: Attribute, us: seq<Update>, vs: seq<Update>)
    requires h.Injective() && AllComplete(us) && AllComplete(vs) && SameMembers(us, vs)
    requires forall u | u in us :: a in u.provided && HasShape(a, u.values[a])
    requires FitAnyOrder(us)
    ensures AgreeOn(a, Run(h, us), Run(h, vs))
  {
    SameTotals(us, vs);
    DecidedByAll(h, a, us);
    DecidedByAll(h, a, vs);
    SameDecision(h, a, Run(h, us), Run(h, vs), us, vs);
  }

  lemma {:induction false} AllDeciding(a: Attribute, us: seq<Update>)
    requires forall u | u in us :: a in u.provided
    ensures Deciding(a, us) == us
  {
    if us != [] {
      assert us == us[..|us| - 1] + [us[|us| - 1]];
      AllDeciding(a, us[..|us| - 1]);
    }
  }

  /** A profile that holds as many references as fit is frozen: every update carries one at least. */
  lemma FullProfileIsFrozen(h: Hashing, p: Profile, u: Update)
    requires Complete(p.slots) && Complete(u.values) && |p.refs| >= 32 && u.refs != map[]
    ensures UpdateProfile(h, Some(p), u) == None
  {
    assert |u.refs| > 0;
    UpdateOutcome(h, Some(p), u);
  }

  /** An update that created a profile is accepted a second time exactly when its references fit
      twice: seventeen do not. */
  lemma SentTwiceIff(h: Hashing, u: Update)
    requires Complete(u.values) && UpdateProfile(h, None, u).Some?
    ensures UpdateProfile(h, UpdateProfile(h, None, u), u).Some? <==> |u.refs| <= 16
  {
    var n := UpdateProfile(h, None, u).value;
    UpdateOutcome(h, None, u);
    UpdateOutcome(h, Some(n), u);
    assert n.evidence + u.evidence == u.evidence;
    assert n.refs.Keys == u.refs.Keys && |n.refs.Keys| == |n.refs| && |u.refs.Keys| == |u.refs|;
  }

  // ----- attributes an update leaves out ---------------------------------------------------

  ghost predicate TruthMatches(h: Hashing, slot: Slot) {
    slot.truth.Some? && slot.truth.value.digest == h.digest(slot.value)
  }

  /** An update that leaves an attribute out keeps what its value is known from.  That still fits the
      value exactly when the attribute is none of the two that are overwritten, or was at its
      default. */
  lemma TruthStaysIff(h: Hashing, a: Attribute, p: Profile, u: Update)
    requires h.Injective() && a in p.slots && a in u.values && a !in u.provided && u.values[a] == Default(a)
    requires HasShape(a, p.slots[a].value) && TruthMatches(h, p.slots[a])
    ensures TruthMatches(h, MergeSlot(h, a, p, u, false)) <==> !AlwaysOverwritten(a) || p.slots[a].value == Default(a)
    ensures !AlwaysOverwritten(a) ==> Agree(p.slots[a], MergeSlot(h, a, p, u, false))
    ensures AlwaysOverwritten(a) ==> MergeSlot(h, a, p, u, false).value == Default(a)
  {
    if !AlwaysOverwritten(a) {
      OmittedStays(h, a, p, u);
    }
  }

  /** So leaving out the status puts an archived profile back to active, while the lineage still
      says archived. */
  lemma LeftOutStatusIsOverwritten(h: Hashing, p: Profile, u: Update)
    requires h.Injective() && Complete(p.slots) && Complete(u.values)
    requires Status !in u.provided && u.values[Status] == ACTIVE
    requires p.slots[Status].value == Single(1) && TruthMatches(h, p.slots[Status])
    ensures var slot := MergeSlot(h, Status, p, u, false);
            slot.value == ACTIVE && slot.truth.value.digest == h.digest(Single(1)) && !TruthMatches(h, slot)
  {
  }

  // ----- the stored profiles ---------------------------------------------------------------

  predicate AllSlots(ps: seq<Profile>) { forall i | 0 <= i < |ps| :: Complete(ps[i].slots) }

  ghost predicate DistinctProfiles(ps: seq<Profile>) { forall i, j | 0 <= i < j < |ps| :: ps[i].id != ps[j].id }

  function FindProfile(ps: seq<Profile>, id: int): (p: Option<Profile>)
    ensures p.Some? ==> p.value in ps && p.value.id == id
    ensures p.None? ==> forall q | q in ps :: q.id != id
  {
    if ps == [] then None else if ps[0].id == id then Some(ps[0]) else FindProfile(ps[1..], id)
  }

  lemma {:induction false} FindAt(ps: seq<Profile>, i: nat)
    requires i < |ps| && DistinctProfiles(ps)
    ensures FindProfile(ps, ps[i].id) == Some(ps[i])
  {
  }

  datatype UpdateAction = Created | Updated | Noop | Refused

  class LearnerProfiles {
    var profiles: seq<Profile>

    ghost predicate Valid()
      reads this
    {
      AllSlots(profiles) && DistinctProfiles(profiles)
    }

    constructor ()
      ensures Valid() && profiles == []
    {
      profiles := [];
    }

    method FindIndex(id: int) returns (index: nat)
      requires Valid()
      ensures index <= |profiles| && (index < |profiles| ==> profiles[index].id == id)
      ensures FindProfile(profiles, id) == if index < |profiles| then Some(profiles[index]) else None
      ensures index == |profiles| ==> forall i | 0 <= i < |profiles| :: profiles[i].id != id
    {
      index := 0;
      while index < |profiles| && profiles[index].id != id
        invariant index <= |profiles|
        invariant forall i | 0 <= i < index :: profiles[i].id != id
      {
        index := index + 1;
      }
      if index < |profiles| {
        FindAt(profiles, index);
      }
    }

    /** Stores what the update makes of the profile with its id and leaves all others alone. */
    method RunLearnerProfileUpdate(h: Hashing, u: Update) returns (action: UpdateAction)
      requires Valid() && Complete(u.values)
      modifies this
      ensures Valid()
      ensures var was := old(FindProfile(profiles, u.id));
              var next := UpdateProfile(h, was, u);
              FindProfile(profiles, u.id) == (if next.None? then was else next)
              && (action == Refused <==> next.None?)
              && (action == Created <==> next.Some? && was.None?)
              && (action == Noop <==> next.Some? && next == was)
      ensures forall id | id != u.id :: FindProfile(profiles, id) == old(FindProfile(profiles, id))
      ensures |profiles| == |old(profiles)| + if action == Created then 1 else 0
    {
      ghost var before := profiles;
      if !Supported(u) || !Fits(EmptySeed(u), u) {
        return Refused;
      }
      var index := FindIndex(u.id);
      if index == |profiles| {
        var created := Merge(h, EmptySeed(u), u, true);
        profiles := profiles + [created];
        AddedAtEnd(before, created);
        return Created;
      }
      action := UpdateExisting(h, u, index);
    }

    method UpdateExisting(h: Hashing, u: Update, index: nat) returns (action: UpdateAction)
      requires Valid() && Complete(u.values) && Supported(u) && Fits(EmptySeed(u), u)
      requires index < |profiles| && profiles[index].id == u.id
      modifies this
      ensures Valid() && |profiles| == |old(profiles)| && action != Created
      ensures var was := old(profiles[index]);
              var next := UpdateProfile(h, Some(was), u);
              && FindProfile(profiles, u.id) == Some(if next.None? then was else next.value)
              && (action == Refused <==> next.None?) && (action == Noop <==> next == Some(was))
      ensures forall id | id != u.id :: FindProfile(profiles, id) == old(FindProfile(profiles, id))
    {
      FindAt(profiles, index);
      if !Fits(profiles[index], u) {
        return Refused;
      }
      var next := NextVersion(profiles[index], Merge(h, profiles[index], u, false));
      if next == profiles[index] {
        return Noop;
      }
      Replaced(profiles, index, next);
      profiles := profiles[index := next];
      action := Updated;
    }
  }

  lemma AddedAtEnd(ps: seq<Profile>, p: Profile)
    requires DistinctProfiles(ps) && forall i | 0 <= i < |ps| :: ps[i].id != p.id
    ensures DistinctProfiles(ps + [p]) && FindProfile(ps, p.id) == None
    ensures forall id :: FindProfile(ps + [p], id) == if id == p.id then Some(p) else FindProfile(ps, id)
  {
  }

  lemma Replaced(ps: seq<Profile>, index: nat, p: Profile)
    requires DistinctProfiles(ps) && index < |ps| && ps[index].id == p.id
    ensures DistinctProfiles(ps[index := p])
    ensures forall id :: FindProfile(ps[index := p], id) == if id == p.id then Some(p) else FindProfile(ps, id)
  {
    var qs := ps[index := p];
    assert forall i | 0 <= i < |ps| :: qs[i].id == ps[i].id;
    forall id ensures FindProfile(qs, id) == if id == p.id then Some(p) else FindProfile(ps, id) {
      if i: nat :| i < |ps| && ps[i].id == id {
        FindAt(qs, i);
        FindAt(ps, i);
      } else {
        assert forall q | q in qs :: q.id != id;
        assert forall q | q in ps :: q.id != id;
      }
    }
  }
}
