/** The review scheduler: the bounded active set with its archival tiers, and the clock. */
module ReviewSchedule {
  import opened Numbers
  import opened Timeline
  import opened Lifecycle

  // Statuses in the order of their names.
  datatype ReviewStatus = Completed | Due | Scheduled | Suspended
  datatype Tier = Active | Warm | Cold | Frozen

  datatype Entry = Entry(
    id: Id, targetId: Id, status: ReviewStatus, dueAt: Time, intervalDays: int, repetition: nat,
    sources: set<Id>, evidence: set<Id>, updatedAt: Time,
    tier: Option<Tier>, activeReview: bool, rebalancedAt: Option<Time>)

  datatype ArchiveSeed = ArchiveSeed(entryId: Id, tier: Tier)
  datatype ArchiveRecord = ArchiveRecord(
    id: Id, seed: ArchiveSeed, targetId: Id, archivedAt: Time, dueAt: Time, sources: set<Id>, evidence: set<Id>,
    status: ReviewStatus, repetition: nat)

  datatype Tiers = Tiers(
    limit: nat, active: seq<Id>, warm: seq<Id>, cold: seq<Id>, frozen: seq<Id>,
    archived: seq<ArchiveRecord>, updatedAt: Time)

  datatype Schedule = Schedule(entries: seq<Entry>, tiers: Tiers)

  const DEFAULT_ACTIVE_LIMIT := 32
  const MAX_ACTIVE_LIMIT := 256

  function Rank(s: ReviewStatus): nat {
    match s
    case Completed => 0
    case Due => 1
    case Scheduled => 2
    case Suspended => 3
  }

  /** Due date, then status, then id. */
  function ReviewKey(e: Entry): Key { Key(4 * e.dueAt + Rank(e.status), e.id) }

  lemma ReviewKeyOrder(a: Entry, b: Entry)
    ensures Before(ReviewKey(a), ReviewKey(b)) <==>
              a.dueAt < b.dueAt
              || (a.dueAt == b.dueAt && (Rank(a.status) < Rank(b.status)
                                         || (a.status == b.status && a.id < b.id)))
  {
  }

  function ArchiveKey(r: ArchiveRecord): Key { Key(r.archivedAt, r.id) }

  // ----- rebalancing -----------------------------------------------------------------------

  predicate Reviewable(e: Entry) { e.status == Due || e.status == Scheduled }

  function Keep(s: seq<Entry>, p: Entry -> bool): (r: seq<Entry>)
    ensures forall e :: e in r <==> e in s && p(e)
  {
    if s == [] then [] else (if p(s[0]) then [s[0]] else []) + Keep(s[1..], p)
  }

  function IdsOf(s: seq<Entry>): (r: seq<Id>)
    ensures |r| == |s| && forall i | 0 <= i < |s| :: r[i] == s[i].id
  {
    seq(|s|, i requires 0 <= i < |s| => s[i].id)
  }

  function Take(s: seq<Entry>, n: nat): seq<Entry> {
    if |s| <= n then s else s[..n]
  }

  function ActiveEntries(entries: seq<Entry>, limit: nat): seq<Entry> {
    Take(Keep(Sort(entries, ReviewKey), (e: Entry) => Reviewable(e)), limit)
  }

  function ActiveIds(entries: seq<Entry>, limit: nat): seq<Id> {
    IdsOf(ActiveEntries(entries, limit))
  }

  function Overflow(entries: seq<Entry>, limit: nat): seq<Entry> {
    var active := ActiveIds(entries, limit);
    Keep(Sort(entries, ReviewKey), (e: Entry) => e.id !in active)
  }

  function ArchiveTier(e: Entry, at: Time): Tier {
    var age := (at - e.dueAt) / DAY;
    if age >= 365 then Frozen else if e.status == Completed || age >= 90 then Cold else Warm
  }

  /** The overflow of one tier, in order. */
  function TierList(overflow: seq<Entry>, at: Time, tier: Tier): seq<Id> {
    IdsOf(Keep(overflow, (e: Entry) => ArchiveTier(e, at) == tier))
  }

  function TierIds(overflow: seq<Entry>, at: Time, tier: Tier): seq<Id> {
    SortedUnique(TierList(overflow, at, tier))
  }

  function Archive(archiveId: ArchiveSeed -> Id, e: Entry, at: Time): ArchiveRecord {
    var seed := ArchiveSeed(e.id, ArchiveTier(e, at));
    ArchiveRecord(archiveId(seed), seed, e.targetId, at, e.dueAt, e.sources, e.evidence, e.status, e.repetition)
  }

  function Marked(e: Entry, active: seq<Id>, at: Time): Entry {
    e.(tier := Some(if e.id in active then Active else ArchiveTier(e, at)),
       activeReview := e.id in active, rebalancedAt := Some(at))
  }

  function MarkedAll(entries: seq<Entry>, active: seq<Id>, at: Time): (r: seq<Entry>)
    ensures |r| == |entries| && forall i | 0 <= i < |r| :: r[i] == Marked(entries[i], active, at)
  {
    seq(|entries|, i requires 0 <= i < |entries| => Marked(entries[i], active, at))
  }

  function ArchiveAll(archiveId: ArchiveSeed -> Id, overflow: seq<Entry>, at: Time): seq<ArchiveRecord> {
    seq(|overflow|, i requires 0 <= i < |overflow| => Archive(archiveId, overflow[i], at))
  }

  /** The stored id lists may not exceed 128 entries when they are read back. */
  predicate Readable(t: Tiers) { ListsReadable(t) && RecordsReadable(t.archived) }

  predicate ListsReadable(t: Tiers) {
    && |SortedUnique(t.active)| <= MAX_LIST_ITEMS && |SortedUnique(t.warm)| <= MAX_LIST_ITEMS
    && |SortedUnique(t.cold)| <= MAX_LIST_ITEMS && |SortedUnique(t.frozen)| <= MAX_LIST_ITEMS
  }

  predicate RecordsReadable(archived: seq<ArchiveRecord>) {
    forall r | r in archived :: |r.sources| <= MAX_LIST_ITEMS && |r.evidence| <= MAX_LIST_ITEMS
  }

  function Rebalanced(archiveId: ArchiveSeed -> Id, entries: seq<Entry>, limit: nat, at: Time): Schedule {
    var active, overflow := ActiveIds(entries, limit), Overflow(entries, limit);
    Schedule(
      MarkedAll(entries, active, at),
      Tiers(limit, active, TierIds(overflow, at, Warm), TierIds(overflow, at, Cold), TierIds(overflow, at, Frozen),
            Sort(ArchiveAll(archiveId, overflow, at), ArchiveKey), at))
  }

  /** An entry whose own id lists can be archived. */
  predicate Short(e: Entry) { |e.sources| <= MAX_LIST_ITEMS && |e.evidence| <= MAX_LIST_ITEMS }

  predicate Archivable(overflow: seq<Entry>) { forall i | 0 <= i < |overflow| :: Short(overflow[i]) }

  /** The stored limit, as it is read back. */
  function ActiveLimit(limit: nat): nat { if limit == 0 then DEFAULT_ACTIVE_LIMIT else Min(limit, MAX_ACTIVE_LIMIT) }

  /** What reading the stored lists back makes of them, and stores. */
  function Normalised(t: Tiers): Tiers {
    Tiers(ActiveLimit(t.limit), SortedUnique(t.active), SortedUnique(t.warm), SortedUnique(t.cold), SortedUnique(t.frozen),
          Sort(t.archived, ArchiveKey), t.updatedAt)
  }

  /** What a rebalance that throws leaves: nothing is stored when the lists cannot be read back, and
      only the lists as they were read when an entry cannot be archived. */
  function AfterThrow(s: Schedule): Schedule {
    if Readable(s.tiers) then s.(tiers := Normalised(s.tiers)) else s
  }

  /** `rebalanceReviewSet`, unless it throws: the stored lists or those of an entry to archive may be
      too long. */
  function Rebalance(archiveId: ArchiveSeed -> Id, s: Schedule, limit: nat, at: Time): Option<Schedule> {
    if Readable(s.tiers) && Archivable(Overflow(s.entries, limit)) then Some(Rebalanced(archiveId, s.entries, limit, at)) else None
  }

  lemma {:induction false} SortOfSorted<T(!new)>(s: seq<T>, key: T -> Key)
    requires Sorted(s, key)
    ensures Sort(s, key) == s
  {
    if s != [] {
      SortOfSorted(s[..|s| - 1], key);
      assert Insert(s[..|s| - 1], s[|s| - 1], key) == s[..|s| - 1] + [s[|s| - 1]];
    }
  }

  lemma SortedUniqueAgain(ids: seq<Id>)
    ensures SortedUnique(SortedUnique(ids)) == SortedUnique(ids)
  {
    AscendingDetermined(SortedUnique(SortedUnique(ids)), SortedUnique(ids));
  }

  lemma NormalisedAgain(t: Tiers)
    ensures Normalised(Normalised(t)) == Normalised(t)
  {
    SortedUniqueAgain(t.active);
    SortedUniqueAgain(t.warm);
    SortedUniqueAgain(t.cold);
    SortedUniqueAgain(t.frozen);
    RecordsSortedAgain(t.archived);
  }

  lemma RecordsSortedAgain(archived: seq<ArchiveRecord>)
    ensures Sort(Sort(archived, ArchiveKey), ArchiveKey) == Sort(archived, ArchiveKey)
  {
    SortSorted(archived, ArchiveKey);
    SortOfSorted(Sort(archived, ArchiveKey), ArchiveKey);
  }

  lemma NormalisedIsReadable(t: Tiers)
    requires Readable(t)
    ensures Readable(Normalised(t))
  {
    SortedUniqueAgain(t.active);
    SortedUniqueAgain(t.warm);
    SortedUniqueAgain(t.cold);
    SortedUniqueAgain(t.frozen);
  }

  ghost predicate SameIds(s: seq<Id>, t: seq<Id>) { forall id :: id in s <==> id in t }

  /** A call that throws keeps the entries and what the lists name, and the same call afterwards
      throws again and changes nothing more. */
  lemma ThrowsAgain(archiveId: ArchiveSeed -> Id, s: Schedule, limit: nat, at: Time)
    requires Rebalance(archiveId, s, limit, at) == None
    ensures var n := AfterThrow(s);
            && n.entries == s.entries
            && SameIds(n.tiers.active, s.tiers.active) && SameIds(n.tiers.warm, s.tiers.warm)
            && SameIds(n.tiers.cold, s.tiers.cold) && SameIds(n.tiers.frozen, s.tiers.frozen)
            && Rebalance(archiveId, n, limit, at) == None && AfterThrow(n) == n
  {
    if Readable(s.tiers) {
      NormalisedAgain(s.tiers);
      NormalisedIsReadable(s.tiers);
    }
  }

  // ----- what a rebalance guarantees -------------------------------------------------------

  lemma {:induction false} KeepOrdered(s: seq<Entry>, p: Entry -> bool)
    requires Ordered(s, ReviewKey)
    ensures Ordered(Keep(s, p), ReviewKey)
  {
    if s != [] {
      KeepOrdered(s[1..], p);
      var rest := Keep(s[1..], p);
      forall i | 0 <= i < |rest| ensures Before(ReviewKey(s[0]), ReviewKey(rest[i])) {
        assert rest[i] in s[1..];
        var k :| 0 <= k < |s[1..]| && s[1..][k] == rest[i];
        assert Before(ReviewKey(s[0]), ReviewKey(s[k + 1]));
      }
    }
  }

  /** How many entries may be active. */
  function CountReviewable(entries: seq<Entry>): nat {
    if entries == [] then 0
    else CountReviewable(entries[..|entries| - 1]) + if Reviewable(entries[|entries| - 1]) then 1 else 0
  }

  lemma {:induction false} KeepCounts(s: seq<Entry>)
    ensures |Keep(s, (e: Entry) => Reviewable(e))| == CountReviewable(s)
  {
    if s != [] {
      KeepCounts(s[1..]);
      CountHead(s);
    }
  }

  lemma {:induction false} CountHead(s: seq<Entry>)
    requires s != []
    ensures CountReviewable(s) == (if Reviewable(s[0]) then 1 else 0) + CountReviewable(s[1..])
  {
    if |s| > 1 {
      CountHead(s[..|s| - 1]);
      assert s[..|s| - 1][1..] == s[1..][..|s[1..]| - 1];
    }
  }

  lemma {:induction false} CountInsert(s: seq<Entry>, x: Entry)
    ensures CountReviewable(Insert(s, x, ReviewKey)) == CountReviewable(s) + if Reviewable(x) then 1 else 0
  {
    if s == [] || !Before(ReviewKey(x), ReviewKey(s[|s| - 1])) {
      assert (s + [x])[..|s|] == s;
    } else {
      var front, l := s[..|s| - 1], s[|s| - 1];
      CountInsert(front, x);
      var inserted := Insert(front, x, ReviewKey);
      assert (inserted + [l])[..|inserted|] == inserted;
    }
  }

  lemma {:induction false} CountSort(s: seq<Entry>)
    ensures CountReviewable(Sort(s, ReviewKey)) == CountReviewable(s)
  {
    if s != [] {
      CountSort(s[..|s| - 1]);
      CountInsert(Sort(s[..|s| - 1], ReviewKey), s[|s| - 1]);
    }
  }

  /** The active set is as large as it may be and holds the least due or scheduled entries. */
  lemma ActiveIsLeast(entries: seq<Entry>, limit: nat)
    requires UniqueIds(entries, ReviewKey)
    ensures |ActiveEntries(entries, limit)| == Min(limit, CountReviewable(entries))
    ensures Ordered(ActiveEntries(entries, limit), ReviewKey)
    ensures forall e | e in ActiveEntries(entries, limit) :: e in entries && Reviewable(e)
    ensures forall e, x | e in ActiveEntries(entries, limit) && x in entries && Reviewable(x)
                          && x !in ActiveEntries(entries, limit) :: Before(ReviewKey(e), ReviewKey(x))
  {
    var sorted := Sort(entries, ReviewKey);
    var kept := Keep(sorted, (e: Entry) => Reviewable(e));
    SortKeepsMap(entries, ReviewKey);
    KeepOrdered(sorted, (e: Entry) => Reviewable(e));
    KeepCounts(sorted);
    CountSort(entries);
    assert forall x | x in entries && Reviewable(x) :: x in kept;
    TakenFirst(kept, limit);
  }

  lemma TakenFirst(kept: seq<Entry>, n: nat)
    requires Ordered(kept, ReviewKey)
    ensures Ordered(Take(kept, n), ReviewKey) && |Take(kept, n)| == Min(n, |kept|)
    ensures forall e | e in Take(kept, n) :: e in kept
    ensures forall e, x | e in Take(kept, n) && x in kept && x !in Take(kept, n) :: Before(ReviewKey(e), ReviewKey(x))
  {
  }

  lemma EntryById(entries: seq<Entry>, a: Entry, b: Entry)
    requires UniqueIds(entries, ReviewKey) && a in entries && b in entries && a.id == b.id
    ensures a == b
  {
  }

  lemma IdsOfMembers(s: seq<Entry>, id: Id)
    ensures id in IdsOf(s) <==> exists e :: e in s && e.id == id
  {
  }

  /** Which list each entry goes to. */
  lemma WhereEntriesGo(entries: seq<Entry>, limit: nat, at: Time, e: Entry)
    requires UniqueIds(entries, ReviewKey) && e in entries
    ensures var active, overflow := ActiveIds(entries, limit), Overflow(entries, limit);
            && (e.id in active <==> e in ActiveEntries(entries, limit))
            && (forall tier :: e.id in TierIds(overflow, at, tier) <==> e.id !in active && ArchiveTier(e, at) == tier)
  {
    var active, overflow := ActiveIds(entries, limit), Overflow(entries, limit);
    ActiveIsLeast(entries, limit);
    IdsOfMembers(ActiveEntries(entries, limit), e.id);
    if e.id in active {
      var x :| x in ActiveEntries(entries, limit) && x.id == e.id;
      EntryById(entries, x, e);
    }
    forall tier ensures e.id in TierIds(overflow, at, tier) <==> e.id !in active && ArchiveTier(e, at) == tier {
      var kept := Keep(overflow, (x: Entry) => ArchiveTier(x, at) == tier);
      IdsOfMembers(kept, e.id);
      assert e in kept <==> e.id !in active && ArchiveTier(e, at) == tier;
      if e.id in TierIds(overflow, at, tier) {
        var x :| x in kept && x.id == e.id;
        EntryById(entries, x, e);
      }
    }
  }

  ghost predicate Listing(ids: seq<Id>, entries: seq<Entry>) {
    forall id | id in ids :: exists e :: e in entries && e.id == id
  }

  /** A list holds the ids of these entries only. */
  lemma ListedFromEntries(entries: seq<Entry>, limit: nat, at: Time)
    requires UniqueIds(entries, ReviewKey)
    ensures Listing(ActiveIds(entries, limit), entries)
    ensures forall tier :: Listing(TierIds(Overflow(entries, limit), at, tier), entries)
  {
    var overflow := Overflow(entries, limit);
    ActiveIsLeast(entries, limit);
    forall id | id in ActiveIds(entries, limit) ensures exists e :: e in entries && e.id == id {
      IdsOfMembers(ActiveEntries(entries, limit), id);
    }
    forall tier, id | id in TierIds(overflow, at, tier) ensures exists e :: e in entries && e.id == id {
      IdsOfMembers(Keep(overflow, (x: Entry) => ArchiveTier(x, at) == tier), id);
    }
  }

  /** Every entry is in exactly one of the four lists. */
  lemma EveryEntryOnce(entries: seq<Entry>, limit: nat, at: Time)
    requires UniqueIds(entries, ReviewKey)
    ensures var active, overflow := ActiveIds(entries, limit), Overflow(entries, limit);
            forall e, tier | e in entries ::
              e.id in TierIds(overflow, at, tier) <==> e.id !in active && ArchiveTier(e, at) == tier
  {
    forall e, tier | e in entries
      ensures var active, overflow := ActiveIds(entries, limit), Overflow(entries, limit);
              e.id in TierIds(overflow, at, tier) <==> e.id !in active && ArchiveTier(e, at) == tier
    {
      WhereEntriesGo(entries, limit, at, e);
    }
  }

  /** The schedule keeps its entries but for the marks, and the marks agree with the lists. */
  ghost predicate MarkedAs(entries: seq<Entry>, s: Schedule, at: Time) {
    && |s.entries| == |entries|
    && forall i | 0 <= i < |entries| ::
         var e, t := s.entries[i], s.tiers;
         && e == entries[i].(tier := e.tier, activeReview := e.activeReview, rebalancedAt := Some(at))
         && e.tier.Some? && (e.activeReview <==> e.id in t.active)
         && (e.tier == Some(Active) <==> e.id in t.active) && (e.tier == Some(Warm) <==> e.id in t.warm)
         && (e.tier == Some(Cold) <==> e.id in t.cold) && (e.tier == Some(Frozen) <==> e.id in t.frozen)
  }

  /** The four lists are disjoint, cover the entries and nothing else, the archived ones are
      ascending, and every entry carries the tier of the list it is in. */
  lemma RebalanceSplits(archiveId: ArchiveSeed -> Id, entries: seq<Entry>, limit: nat, at: Time)
    requires UniqueIds(entries, ReviewKey)
    ensures var s := Rebalanced(archiveId, entries, limit, at);
            var t := s.tiers;
            && (forall e | e in entries :: e.id in t.active || e.id in t.warm || e.id in t.cold || e.id in t.frozen)
            && (forall id | id in t.active :: id !in t.warm && id !in t.cold && id !in t.frozen)
            && (forall id | id in t.warm :: id !in t.cold && id !in t.frozen)
            && (forall id | id in t.cold :: id !in t.frozen)
            && Listing(t.active, entries) && Listing(t.warm, entries) && Listing(t.cold, entries) && Listing(t.frozen, entries)
            && Ascending(t.warm) && Ascending(t.cold) && Ascending(t.frozen)
            && MarkedAs(entries, s, at)
  {
    var active, overflow := ActiveIds(entries, limit), Overflow(entries, limit);
    ListedFromEntries(entries, limit, at);
    EveryEntryOnce(entries, limit, at);
    MarksAgree(entries, Rebalanced(archiveId, entries, limit, at), limit, at);
  }

  lemma MarksAgree(entries: seq<Entry>, s: Schedule, limit: nat, at: Time)
    requires UniqueIds(entries, ReviewKey) && s.entries == MarkedAll(entries, s.tiers.active, at)
    requires var overflow := Overflow(entries, limit);
             s.tiers.active == ActiveIds(entries, limit) && s.tiers.warm == TierIds(overflow, at, Warm)
             && s.tiers.cold == TierIds(overflow, at, Cold) && s.tiers.frozen == TierIds(overflow, at, Frozen)
    ensures MarkedAs(entries, s, at)
  {
    forall i | 0 <= i < |entries|
      ensures var e, t := s.entries[i], s.tiers;
              (e.id in t.warm <==> e.tier == Some(Warm)) && (e.id in t.cold <==> e.tier == Some(Cold))
              && (e.id in t.frozen <==> e.tier == Some(Frozen))
    {
      WhereEntriesGo(entries, limit, at, entries[i]);
    }
  }

  // ----- which tier an entry goes to ---------------------------------------------------------

  /** The tier of an archived entry, read off its dates. */
  lemma TierByDate(e: Entry, at: Time)
    ensures ArchiveTier(e, at) == Frozen <==> at - e.dueAt >= 365 * DAY
    ensures ArchiveTier(e, at) == Warm <==> e.status != Completed && at - e.dueAt < 90 * DAY
    ensures ArchiveTier(e, at) == Cold <==>
              at - e.dueAt < 365 * DAY && (e.status == Completed || at - e.dueAt >= 90 * DAY)
  {
  }

  /** An entry that is not active is frozen when it is a year overdue, warm when it is neither completed
      nor ninety days overdue, and cold otherwise. */
  lemma TiersByDate(archiveId: ArchiveSeed -> Id, entries: seq<Entry>, limit: nat, at: Time, e: Entry)
    requires UniqueIds(entries, ReviewKey) && e in entries
    ensures var t := Rebalanced(archiveId, entries, limit, at).tiers;
            e.id !in t.active ==>
              && (e.id in t.frozen <==> at - e.dueAt >= 365 * DAY)
              && (e.id in t.warm <==> e.status != Completed && at - e.dueAt < 90 * DAY)
              && (e.id in t.cold <==> at - e.dueAt < 365 * DAY && (e.status == Completed || at - e.dueAt >= 90 * DAY))
    ensures e.id in Rebalanced(archiveId, entries, limit, at).tiers.active ==> e.status == Due || e.status == Scheduled
  {
    WhereEntriesGo(entries, limit, at, e);
    ActiveIsLeast(entries, limit);
    TierByDate(e, at);
  }

  /** The archive record of an entry: its own fields, the time of the call and its tier by date. */
  predicate ArchivedAs(archiveId: ArchiveSeed -> Id, e: Entry, at: Time, r: ArchiveRecord) {
    && r.id == archiveId(r.seed) && r.seed.entryId == e.id && r.targetId == e.targetId && r.archivedAt == at && r.dueAt == e.dueAt
    && r.sources == e.sources && r.evidence == e.evidence && r.status == e.status && r.repetition == e.repetition
    && r.seed.tier == (if at - e.dueAt >= 365 * DAY then Frozen
                       else if e.status == Completed || at - e.dueAt >= 90 * DAY then Cold else Warm)
  }

  /** The archive holds such a record of every entry that is not active, and no other. */
  lemma ArchiveByDate(archiveId: ArchiveSeed -> Id, entries: seq<Entry>, limit: nat, at: Time)
    requires UniqueIds(entries, ReviewKey)
    ensures var t := Rebalanced(archiveId, entries, limit, at).tiers;
            && (forall e | e in entries && e.id !in t.active :: exists r :: r in t.archived && ArchivedAs(archiveId, e, at, r))
            && (forall r | r in t.archived :: exists e :: e in entries && e.id !in t.active && ArchivedAs(archiveId, e, at, r))
            && |t.archived| == |Overflow(entries, limit)|
  {
    var overflow, all := Overflow(entries, limit), ArchiveAll(archiveId, Overflow(entries, limit), at);
    var t := Rebalanced(archiveId, entries, limit, at).tiers;
    forall e | e in entries && e.id !in t.active ensures exists r :: r in t.archived && ArchivedAs(archiveId, e, at, r) {
      var i :| 0 <= i < |overflow| && overflow[i] == e;
      TierByDate(e, at);
      assert all[i] in all && ArchivedAs(archiveId, e, at, all[i]);
    }
    forall r | r in t.archived ensures exists e :: e in entries && e.id !in t.active && ArchivedAs(archiveId, e, at, r) {
      var i :| 0 <= i < |all| && all[i] == r;
      TierByDate(overflow[i], at);
      assert overflow[i] in overflow && ArchivedAs(archiveId, overflow[i], at, r);
    }
  }

  // ----- when a rebalance goes through --------------------------------------------------------

  function IdSet(ids: seq<Id>): set<Id> { set id | id in ids }

  lemma {:induction false} AscendingSize(s: seq<Id>)
    requires Ascending(s)
    ensures |IdSet(s)| == |s|
  {
    if s != [] {
      AscendingSize(s[1..]);
      assert s[0] !in s[1..];
      assert IdSet(s) == IdSet(s[1..]) + {s[0]};
    }
  }

  lemma ReadableSize(ids: seq<Id>)
    ensures |SortedUnique(ids)| == |IdSet(ids)|
  {
    AscendingSize(SortedUnique(ids));
    assert IdSet(SortedUnique(ids)) == IdSet(ids);
  }

  predicate ShortLists(sources: set<Id>, evidence: set<Id>) { |sources| <= 128 && |evidence| <= 128 }

  /** A rebalance throws exactly when a stored list names more than 128 entries, or a stored archive
      record or an entry that would be archived has more than 128 sources or pieces of evidence. */
  lemma RebalanceGoesThroughIff(archiveId: ArchiveSeed -> Id, s: Schedule, limit: nat, at: Time)
    ensures Rebalance(archiveId, s, limit, at).Some? <==>
              && |IdSet(s.tiers.active)| <= 128 && |IdSet(s.tiers.warm)| <= 128
              && |IdSet(s.tiers.cold)| <= 128 && |IdSet(s.tiers.frozen)| <= 128
              && (forall r | r in s.tiers.archived :: ShortLists(r.sources, r.evidence))
              && (forall e | e in s.entries && e.id !in ActiveIds(s.entries, limit) :: ShortLists(e.sources, e.evidence))
  {
    ReadableSize(s.tiers.active);
    ReadableSize(s.tiers.warm);
    ReadableSize(s.tiers.cold);
    ReadableSize(s.tiers.frozen);
    OverflowMembers(s.entries, limit);
    var overflow := Overflow(s.entries, limit);
    assert Archivable(overflow) <==> forall e | e in overflow :: ShortLists(e.sources, e.evidence);
  }

  lemma OverflowMembers(entries: seq<Entry>, limit: nat)
    ensures forall e :: e in Overflow(entries, limit) <==> e in entries && e.id !in ActiveIds(entries, limit)
  {
  }

  /** What reading the stored lists back makes of them: the limit lies between 1 and 256, 32 unless one
      was set, and each list names the same entries in ascending order. */
  lemma ReadBack(t: Tiers)
    ensures var n := Normalised(t);
            && 1 <= n.limit <= 256 && (1 <= t.limit <= 256 ==> n.limit == t.limit)
            && (t.limit == 0 ==> n.limit == 32) && (t.limit > 256 ==> n.limit == 256)
            && SameIds(n.active, t.active) && SameIds(n.warm, t.warm) && SameIds(n.cold, t.cold) && SameIds(n.frozen, t.frozen)
            && Ascending(n.active) && Ascending(n.warm) && Ascending(n.cold) && Ascending(n.frozen)
            && (forall r :: r in n.archived <==> r in t.archived) && Sorted(n.archived, ArchiveKey) && n.updatedAt == t.updatedAt
  {
    SortSorted(t.archived, ArchiveKey);
  }

  // ----- rebalancing again -----------------------------------------------------------------

  lemma {:induction false} MarkInsert(s: seq<Entry>, x: Entry, active: seq<Id>, at: Time)
    ensures MarkedAll(Insert(s, x, ReviewKey), active, at)
         == Insert(MarkedAll(s, active, at), Marked(x, active, at), ReviewKey)
  {
    var m := MarkedAll(s, active, at);
    if s != [] && Before(ReviewKey(x), ReviewKey(s[|s| - 1])) {
      MarkInsert(s[..|s| - 1], x, active, at);
      assert m[..|m| - 1] == MarkedAll(s[..|s| - 1], active, at);
    }
  }

  lemma {:induction false} MarkSort(s: seq<Entry>, active: seq<Id>, at: Time)
    ensures MarkedAll(Sort(s, ReviewKey), active, at) == Sort(MarkedAll(s, active, at), ReviewKey)
  {
    var m := MarkedAll(s, active, at);
    if s != [] {
      MarkSort(s[..|s| - 1], active, at);
      assert m[..|m| - 1] == MarkedAll(s[..|s| - 1], active, at);
      MarkInsert(Sort(s[..|s| - 1], ReviewKey), s[|s| - 1], active, at);
    }
  }

  lemma MarkCons(e: Entry, s: seq<Entry>, active: seq<Id>, at: Time)
    ensures MarkedAll([e] + s, active, at) == [Marked(e, active, at)] + MarkedAll(s, active, at)
  {
  }

  /** Marking is invisible to a condition that does not read the marks. */
  lemma {:induction false} MarkKeep(s: seq<Entry>, p: Entry -> bool, active: seq<Id>, at: Time)
    requires forall e :: p(Marked(e, active, at)) == p(e)
    ensures MarkedAll(Keep(s, p), active, at) == Keep(MarkedAll(s, active, at), p)
  {
    if s != [] {
      MarkKeep(s[1..], p, active, at);
      MarkCons(s[0], s[1..], active, at);
      MarkCons(s[0], Keep(s[1..], p), active, at);
      assert s == [s[0]] + s[1..];
    }
  }

  lemma MarkIds(s: seq<Entry>, active: seq<Id>, at: Time)
    ensures IdsOf(MarkedAll(s, active, at)) == IdsOf(s)
  {
  }

  lemma TakeOfMarked(s: seq<Entry>, active: seq<Id>, at: Time, n: nat)
    ensures Take(MarkedAll(s, active, at), n) == MarkedAll(Take(s, n), active, at)
  {
  }

  lemma MarkedSetsAgain(entries: seq<Entry>, limit: nat, at: Time)
    ensures var active := ActiveIds(entries, limit);
            var marked := MarkedAll(entries, active, at);
            ActiveIds(marked, limit) == active && Overflow(marked, limit) == MarkedAll(Overflow(entries, limit), active, at)
  {
    var active := ActiveIds(entries, limit);
    var sorted := Sort(entries, ReviewKey);
    MarkSort(entries, active, at);
    MarkKeep(sorted, (e: Entry) => Reviewable(e), active, at);
    var kept := Keep(sorted, (e: Entry) => Reviewable(e));
    TakeOfMarked(kept, active, at, limit);
    MarkIds(Take(kept, limit), active, at);
    MarkKeep(sorted, (e: Entry) => e.id !in active, active, at);
  }

  /** A second rebalance with the same limit at the same time computes the same state. */
  lemma RebalancedAgain(archiveId: ArchiveSeed -> Id, entries: seq<Entry>, limit: nat, at: Time)
    ensures Rebalanced(archiveId, Rebalanced(archiveId, entries, limit, at).entries, limit, at)
         == Rebalanced(archiveId, entries, limit, at)
  {
    var active, overflow := ActiveIds(entries, limit), Overflow(entries, limit);
    var marked := MarkedAll(entries, active, at);
    MarkedSetsAgain(entries, limit, at);
    MarkTwice(entries, active, at);
    TierIdsOfMarked(overflow, active, at, Warm);
    TierIdsOfMarked(overflow, active, at, Cold);
    TierIdsOfMarked(overflow, active, at, Frozen);
    ArchiveOfMarked(archiveId, overflow, active, at);
  }

  lemma MarkTwice(entries: seq<Entry>, active: seq<Id>, at: Time)
    ensures MarkedAll(MarkedAll(entries, active, at), active, at) == MarkedAll(entries, active, at)
  {
  }

  lemma TierIdsOfMarked(overflow: seq<Entry>, active: seq<Id>, at: Time, tier: Tier)
    ensures TierIds(MarkedAll(overflow, active, at), at, tier) == TierIds(overflow, at, tier)
  {
    MarkKeep(overflow, (e: Entry) => ArchiveTier(e, at) == tier, active, at);
    MarkIds(Keep(overflow, (e: Entry) => ArchiveTier(e, at) == tier), active, at);
  }

  lemma ArchiveOfMarked(archiveId: ArchiveSeed -> Id, overflow: seq<Entry>, active: seq<Id>, at: Time)
    ensures ArchiveAll(archiveId, MarkedAll(overflow, active, at), at) == ArchiveAll(archiveId, overflow, at)
  {
  }

  predicate AtMost128(t: Tiers) {
    |t.active| <= MAX_LIST_ITEMS && |t.warm| <= MAX_LIST_ITEMS && |t.cold| <= MAX_LIST_ITEMS && |t.frozen| <= MAX_LIST_ITEMS
  }

  lemma {:induction false} DistinctLength(s: seq<Id>)
    requires forall i, j | 0 <= i < j < |s| :: s[i] != s[j]
    ensures |set x | x in s| == |s|
  {
    if s != [] {
      DistinctLength(s[1..]);
      assert (set x | x in s) == {s[0]} + set x | x in s[1..];
    }
  }

  lemma SortedUniqueLength(s: seq<Id>)
    requires forall i, j | 0 <= i < j < |s| :: s[i] != s[j]
    ensures |SortedUnique(s)| == |s|
  {
    DistinctLength(s);
    DistinctLength(SortedUnique(s));
    assert (set x | x in s) == set x | x in SortedUnique(s);
  }

  lemma ActiveIdsDistinct(entries: seq<Entry>, limit: nat)
    requires UniqueIds(entries, ReviewKey)
    ensures forall i, j | 0 <= i < j < |ActiveIds(entries, limit)| :: ActiveIds(entries, limit)[i] != ActiveIds(entries, limit)[j]
  {
    ActiveIsLeast(entries, limit);
    var active := ActiveEntries(entries, limit);
    forall i, j | 0 <= i < j < |active| ensures active[i].id != active[j].id {
      assert active[i] in active && active[j] in active && Before(ReviewKey(active[i]), ReviewKey(active[j]));
      if active[i].id == active[j].id {
        EntryById(entries, active[i], active[j]);
      }
    }
  }

  /** And it succeeds exactly when no list of the first one is longer than 128. */
  lemma RebalanceTwice(archiveId: ArchiveSeed -> Id, s: Schedule, limit: nat, at: Time)
    requires UniqueIds(s.entries, ReviewKey) && Rebalance(archiveId, s, limit, at).Some?
    ensures var once := Rebalance(archiveId, s, limit, at).value;
            Rebalance(archiveId, once, limit, at) == if AtMost128(once.tiers) then Some(once) else None
  {
    var overflow := Overflow(s.entries, limit);
    MarkedSetsAgain(s.entries, limit, at);
    MarksKeepListsShort(overflow, ActiveIds(s.entries, limit), at);
    ReadableAgainIff(archiveId, s.entries, limit, at);
    RebalancedAgain(archiveId, s.entries, limit, at);
  }

  lemma MarksKeepListsShort(overflow: seq<Entry>, active: seq<Id>, at: Time)
    requires Archivable(overflow)
    ensures Archivable(MarkedAll(overflow, active, at))
  {
  }

  lemma ArchivedAreShort(archiveId: ArchiveSeed -> Id, overflow: seq<Entry>, at: Time)
    requires Archivable(overflow)
    ensures RecordsReadable(Sort(ArchiveAll(archiveId, overflow, at), ArchiveKey))
  {
    assert forall r | r in Sort(ArchiveAll(archiveId, overflow, at), ArchiveKey) :: r in ArchiveAll(archiveId, overflow, at);
  }

  /** The lists a rebalance writes can be read back exactly when they are short enough. */
  lemma ReadableAgainIff(archiveId: ArchiveSeed -> Id, entries: seq<Entry>, limit: nat, at: Time)
    requires UniqueIds(entries, ReviewKey) && Archivable(Overflow(entries, limit))
    ensures Readable(Rebalanced(archiveId, entries, limit, at).tiers) <==> AtMost128(Rebalanced(archiveId, entries, limit, at).tiers)
  {
    var tiers := Rebalanced(archiveId, entries, limit, at).tiers;
    ArchivedAreShort(archiveId, Overflow(entries, limit), at);
    ActiveIdsDistinct(entries, limit);
    AscendingLists(tiers);
  }

  lemma AscendingLists(t: Tiers)
    requires forall i, j | 0 <= i < j < |t.active| :: t.active[i] != t.active[j]
    requires Ascending(t.warm) && Ascending(t.cold) && Ascending(t.frozen)
    ensures ListsReadable(t) <==> AtMost128(t)
  {
    SortedUniqueLength(t.active);
    SortedUniqueLength(t.warm);
    SortedUniqueLength(t.cold);
    SortedUniqueLength(t.frozen);
  }

  lemma {:induction false} KeepAll(s: seq<Entry>, p: Entry -> bool)
    requires forall e | e in s :: p(e)
    ensures Keep(s, p) == s
  {
    if s != [] {
      assert forall e | e in s[1..] :: e in s;
      KeepAll(s[1..], p);
    }
  }

  lemma {:induction false} KeepNone(s: seq<Entry>, p: Entry -> bool)
    requires forall e | e in s :: !p(e)
    ensures Keep(s, p) == []
  {
    if s != [] {
      assert s[0] in s && forall e | e in s[1..] :: e in s;
      KeepNone(s[1..], p);
    }
  }

  /** Completed entries are never active and, unless a year overdue, all cold. */
  lemma CompletedAreCold(entries: seq<Entry>, limit: nat, at: Time)
    requires UniqueIds(entries, ReviewKey)
    requires forall e | e in entries :: e.status == Completed && (at - e.dueAt) / DAY < 365
    ensures Overflow(entries, limit) == Sort(entries, ReviewKey)
    ensures |TierIds(Overflow(entries, limit), at, Cold)| == |entries|
  {
    var sorted := Sort(entries, ReviewKey);
    NoneActive(entries, limit);
    KeepAll(sorted, (e: Entry) => ArchiveTier(e, at) == Cold);
    SortUnique(entries, ReviewKey);
    DistinctIdsListed(sorted);
  }

  lemma NoneActive(entries: seq<Entry>, limit: nat)
    requires forall e | e in entries :: e.status == Completed
    ensures Overflow(entries, limit) == Sort(entries, ReviewKey)
  {
    var sorted := Sort(entries, ReviewKey);
    KeepNone(sorted, (e: Entry) => Reviewable(e));
    KeepAll(sorted, (e: Entry) => e.id !in ActiveIds(entries, limit));
  }

  lemma DistinctIdsListed(entries: seq<Entry>)
    requires UniqueIds(entries, ReviewKey)
    ensures |SortedUnique(IdsOf(entries))| == |entries|
  {
    assert forall i, j | 0 <= i < j < |entries| :: ReviewKey(entries[i]).id != ReviewKey(entries[j]).id;
    SortedUniqueLength(IdsOf(entries));
  }

  lemma AllArchivable(entries: seq<Entry>)
    requires forall e | e in entries :: Short(e)
    ensures Archivable(Sort(entries, ReviewKey))
  {
    assert forall i | 0 <= i < |Sort(entries, ReviewKey)| :: Sort(entries, ReviewKey)[i] in entries;
  }

  /** More than 128 of them, and the second rebalance throws. */
  lemma ManyCompletedStopRebalance(archiveId: ArchiveSeed -> Id, s: Schedule, limit: nat, at: Time)
    requires UniqueIds(s.entries, ReviewKey) && |s.entries| > MAX_LIST_ITEMS && Readable(s.tiers)
    requires forall e | e in s.entries :: e.status == Completed && (at - e.dueAt) / DAY < 365 && Short(e)
    ensures Rebalance(archiveId, s, limit, at).Some?
    ensures Rebalance(archiveId, Rebalance(archiveId, s, limit, at).value, limit, at) == None
  {
    CompletedAreCold(s.entries, limit, at);
    AllArchivable(s.entries);
    assert !AtMost128(Rebalanced(archiveId, s.entries, limit, at).tiers);
    RebalanceTwice(archiveId, s, limit, at);
  }

  /** So many completed entries, all due at the start. */
  function Finished(n: nat): seq<Entry> {
    seq(n, i => Entry(i, 0, Completed, 0, 1, 1, {}, {}, 0, None, false, None))
  }

  /** With 129 of them the first rebalance of a new schedule succeeds and the second does not. */
  lemma RebalanceTwiceExample(archiveId: ArchiveSeed -> Id, n: nat)
    requires n == 129
    ensures var s := Schedule(Finished(n), Tiers(32, [], [], [], [], [], 0));
            var once := Rebalance(archiveId, s, 32, 0);
            once.Some? && Rebalance(archiveId, once.value, 32, 0) == None
  {
    var s := Schedule(Finished(n), Tiers(32, [], [], [], [], [], 0));
    assert UniqueIds(s.entries, ReviewKey);
    assert SortedUnique([]) == [];
    ManyCompletedStopRebalance(archiveId, s, 32, 0);
  }

  // ----- the clock -------------------------------------------------------------------------

  datatype Mode = Interaction | Sleep | Auto
  datatype Cause = NoCause | Forced | SleepMode | FatigueAndNovelty | Fatigue | Novelty

  datatype Clocks = Clocks(
    interactionTick: nat, sleepTick: nat, fatigueLoad: nat, fatigueThreshold: nat,
    noveltyWriteLoad: nat, noveltyWriteThreshold: nat, consolidationCount: nat, cause: Cause,
    lastInteractionAt: Time, lastSleepAt: Time, updatedAt: Time)

  datatype ClockRequest = ClockRequest(
    mode: Mode, interactionIncrement: nat, sleepIncrement: nat, noveltyLoad: nat, noveltyWriteLoad: nat,
    fatigueDelta: nat, fatigueThreshold: nat, noveltyWriteThreshold: nat, at: Time, forceSleep: bool)

  /** The fatigue one call adds. */
  function FatigueAdded(q: ClockRequest): nat {
    if q.mode == Sleep then 0 else q.interactionIncrement + q.noveltyLoad + q.fatigueDelta
  }

  /** The fatigue one consolidation takes away. */
  function Recovery(threshold: nat): nat { Max(1, (threshold + 1) / 2) }

  function Loaded(c: Clocks, q: ClockRequest): Clocks {
    var d := c.(fatigueThreshold := q.fatigueThreshold, noveltyWriteThreshold := q.noveltyWriteThreshold);
    if q.mode == Sleep then d.(noveltyWriteLoad := d.noveltyWriteLoad + q.noveltyWriteLoad)
    else
      d.(interactionTick := d.interactionTick + q.interactionIncrement,
         fatigueLoad := d.fatigueLoad + FatigueAdded(q),
         noveltyWriteLoad := d.noveltyWriteLoad + q.noveltyWriteLoad + q.noveltyLoad,
         lastInteractionAt := q.at)
  }

  function CauseOf(loaded: Clocks, q: ClockRequest): Cause {
    var fatigued := loaded.fatigueLoad >= loaded.fatigueThreshold;
    var novel := loaded.noveltyWriteLoad >= loaded.noveltyWriteThreshold;
    if q.forceSleep then Forced
    else if q.mode == Sleep then SleepMode
    else if fatigued && novel then FatigueAndNovelty
    else if fatigued then Fatigue
    else if novel then Novelty
    else NoCause
  }

  function ClockStep(c: Clocks, q: ClockRequest): Clocks {
    var d := Loaded(c, q);
    var cause := CauseOf(d, q);
    var e :=
      if cause == NoCause then d
      else
        d.(sleepTick := d.sleepTick + Max(q.sleepIncrement, 1), consolidationCount := d.consolidationCount + 1,
           fatigueLoad := Max(0, d.fatigueLoad - Recovery(d.fatigueThreshold)), noveltyWriteLoad := 0,
           lastSleepAt := q.at, cause := cause);
    e.(updatedAt := q.at)
  }

  function Consolidates(c: Clocks, q: ClockRequest): bool { CauseOf(Loaded(c, q), q) != NoCause }

  function EntryStep(e: Entry, at: Time, consolidating: bool): Entry {
    var next := if e.status == Scheduled && e.dueAt <= at then e.(status := Due, updatedAt := at) else e;
    if consolidating && next.status == Completed
    then next.(status := Scheduled, dueAt := at + Max(next.intervalDays, 1) * DAY, updatedAt := at)
    else next
  }

  function StepEntries(entries: seq<Entry>, at: Time, consolidating: bool): (r: seq<Entry>)
    ensures |r| == |entries| && forall i | 0 <= i < |r| :: r[i] == EntryStep(entries[i], at, consolidating)
  {
    seq(|entries|, i requires 0 <= i < |entries| => EntryStep(entries[i], at, consolidating))
  }

  /** What a clock call does to an entry: exactly a scheduled one whose time has come falls due, a
      consolidation schedules exactly a completed one again, its interval but at least a day ahead, and
      nothing else changes. */
  lemma EntryChanges(e: Entry, at: Time, consolidating: bool)
    ensures var n := EntryStep(e, at, consolidating);
            && n == e.(status := n.status, dueAt := n.dueAt, updatedAt := n.updatedAt)
            && (n.status == Due <==> e.status == Due || (e.status == Scheduled && e.dueAt <= at))
            && (n.status == Suspended <==> e.status == Suspended) && (n.status == Completed <==> e.status == Completed && !consolidating)
            && n.dueAt == (if consolidating && e.status == Completed
                           then at + (if e.intervalDays < 1 then 1 else e.intervalDays) * DAY else e.dueAt)
            && n.updatedAt == if n.status != e.status then at else e.updatedAt
  {
  }

  /** What a clock call does to the clocks: work is loaded outside sleep, a consolidation takes place
      when it is forced, in sleep, or at a threshold, and half a threshold is recovered then. */
  lemma ClockChanges(c: Clocks, q: ClockRequest)
    ensures var d, awake := ClockStep(c, q), q.mode != Sleep;
            var fatigue := c.fatigueLoad + if awake then q.interactionIncrement + q.noveltyLoad + q.fatigueDelta else 0;
            var novelty := c.noveltyWriteLoad + q.noveltyWriteLoad + if awake then q.noveltyLoad else 0;
            var tired, full := fatigue >= q.fatigueThreshold, novelty >= q.noveltyWriteThreshold;
            var sleeps := q.forceSleep || !awake || tired || full;
            && (Consolidates(c, q) <==> sleeps)
            && d.fatigueThreshold == q.fatigueThreshold && d.noveltyWriteThreshold == q.noveltyWriteThreshold && d.updatedAt == q.at
            && d.interactionTick == c.interactionTick + (if awake then q.interactionIncrement else 0)
            && d.lastInteractionAt == (if awake then q.at else c.lastInteractionAt)
            && (!sleeps ==>
                  && d.fatigueLoad == fatigue && d.noveltyWriteLoad == novelty && d.sleepTick == c.sleepTick
                  && d.consolidationCount == c.consolidationCount && d.cause == c.cause && d.lastSleepAt == c.lastSleepAt)
            && (sleeps ==>
                  && d.noveltyWriteLoad == 0 && d.consolidationCount == c.consolidationCount + 1 && d.lastSleepAt == q.at
                  && d.sleepTick == c.sleepTick + (if q.sleepIncrement < 1 then 1 else q.sleepIncrement)
                  && d.fatigueLoad == Max(0, fatigue - if q.fatigueThreshold == 0 then 1
                                                       else q.fatigueThreshold / 2 + q.fatigueThreshold % 2)
                  && (d.cause == Forced <==> q.forceSleep) && (d.cause == SleepMode <==> !q.forceSleep && !awake)
                  && (d.cause == FatigueAndNovelty <==> !q.forceSleep && awake && tired && full)
                  && (d.cause == Fatigue <==> !q.forceSleep && awake && tired && !full)
                  && (d.cause == Novelty <==> !q.forceSleep && awake && !tired && full))
  {
  }

  /** After a clock call nothing scheduled is due, after a consolidation nothing is completed, and
      the rebalance that follows does not change that. */
  lemma NothingDueStaysScheduled(archiveId: ArchiveSeed -> Id, entries: seq<Entry>, at: Time, consolidating: bool, limit: nat)
    ensures forall e | e in StepEntries(entries, at, consolidating)
                       || e in Rebalanced(archiveId, StepEntries(entries, at, consolidating), limit, at).entries ::
              && (e.status == Scheduled ==> e.dueAt > at)
              && (consolidating ==> e.status != Completed)
  {
    var stepped := StepEntries(entries, at, consolidating);
    var s := Rebalanced(archiveId, stepped, limit, at);
    forall i | 0 <= i < |stepped|
      ensures (stepped[i].status == Scheduled ==> stepped[i].dueAt > at) && (consolidating ==> stepped[i].status != Completed)
    {
      assert Max(entries[i].intervalDays, 1) * DAY >= DAY;
    }
    forall e | e in s.entries
      ensures (e.status == Scheduled ==> e.dueAt > at) && (consolidating ==> e.status != Completed)
    {
      var i :| 0 <= i < |s.entries| && s.entries[i] == e;
      assert e == Marked(stepped[i], s.tiers.active, at);
    }
  }

  /** The novelty load ends below its threshold whenever the threshold is positive. */
  lemma NoveltyBelowThresholdIff(c: Clocks, q: ClockRequest)
    ensures ClockStep(c, q).noveltyWriteLoad < ClockStep(c, q).noveltyWriteThreshold <==> q.noveltyWriteThreshold > 0
  {
  }

  /** One call ends below a positive fatigue threshold exactly when what was there and what is
      added stay below the threshold plus one recovery. */
  lemma FatigueBelowThresholdIff(c: Clocks, q: ClockRequest)
    requires q.fatigueThreshold > 0
    ensures ClockStep(c, q).fatigueLoad < q.fatigueThreshold <==>
              c.fatigueLoad + FatigueAdded(q) < q.fatigueThreshold + Recovery(q.fatigueThreshold)
  {
  }

  function ClockRun(c: Clocks, calls: seq<ClockRequest>): Clocks {
    if calls == [] then c else ClockStep(ClockRun(c, calls[..|calls| - 1]), calls[|calls| - 1])
  }

  /** With a fixed threshold and at most one recovery of fatigue added per call, the load stays
      below the threshold over any run. */
  lemma {:induction false} FatigueStaysBelow(c: Clocks, calls: seq<ClockRequest>, threshold: nat)
    requires threshold > 0 && c.fatigueLoad < threshold
    requires forall q | q in calls :: q.fatigueThreshold == threshold && FatigueAdded(q) <= Recovery(threshold)
    ensures ClockRun(c, calls).fatigueLoad < threshold
  {
    if calls != [] {
      assert forall q | q in calls[..|calls| - 1] :: q in calls;
      FatigueStaysBelow(c, calls[..|calls| - 1], threshold);
      assert calls[|calls| - 1] in calls;
      FatigueBelowThresholdIff(ClockRun(c, calls[..|calls| - 1]), calls[|calls| - 1]);
    }
  }

  function TotalFatigue(calls: seq<ClockRequest>): nat {
    if calls == [] then 0 else TotalFatigue(calls[..|calls| - 1]) + FatigueAdded(calls[|calls| - 1])
  }

  lemma OneCallPays(c: Clocks, q: ClockRequest)
    ensures var d := ClockStep(c, q);
            && c.consolidationCount <= d.consolidationCount <= c.consolidationCount + 1
            && c.fatigueLoad + FatigueAdded(q)
               <= d.fatigueLoad + if d.consolidationCount > c.consolidationCount then Recovery(q.fatigueThreshold) else 0
  {
  }

  lemma OneMoreRecovery(recovery: nat, n: nat)
    ensures recovery * (n + 1) == recovery * n + recovery
  {
  }

  /** All fatigue ever added is still loaded or was paid for, one recovery per consolidation. */
  lemma {:induction false} ConsolidationsPayForFatigue(c: Clocks, calls: seq<ClockRequest>, threshold: nat)
    requires forall q | q in calls :: q.fatigueThreshold == threshold
    ensures var d := ClockRun(c, calls);
            && d.consolidationCount >= c.consolidationCount
            && c.fatigueLoad + TotalFatigue(calls)
               <= d.fatigueLoad + Recovery(threshold) * (d.consolidationCount - c.consolidationCount)
  {
    if calls != [] {
      var front, q := calls[..|calls| - 1], calls[|calls| - 1];
      assert forall p | p in front :: p in calls;
      assert q in calls;
      ConsolidationsPayForFatigue(c, front, threshold);
      var b := ClockRun(c, front);
      OneCallPays(b, q);
      OneMoreRecovery(Recovery(threshold), b.consolidationCount - c.consolidationCount);
    }
  }
}
