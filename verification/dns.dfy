// VOID DNS cache (core/dns/src/lib.rs): a clocked map from domains to signed
// records, with evidence of refused rival claims. Signatures are symbolic and
// unforgeable; a fingerprint (a hash of the whole record) is the record itself.

module Dns {
  import opened Prelude

  datatype Claim = Claim(
    domain: string,
    owner: string,
    target: string,
    surface: string,
    capabilities: seq<string>,
    createdAt: Millis,
    expiresAt: Millis)

  datatype Signature = SignedBy(peer: string, content: Claim) | Garbage

  datatype DnsRecord = DnsRecord(claim: Claim, signature: Signature)

  /** The owner's key signed exactly this content. */
  predicate Verifies(r: DnsRecord) {
    r.signature == SignedBy(r.claim.owner, r.claim)
  }

  predicate IsExpired(r: DnsRecord, now: Millis) {
    r.claim.expiresAt <= now
  }

  type Fingerprint = DnsRecord

  function FingerprintOf(r: DnsRecord): Fingerprint { r }

  datatype Source = LocalPublish | MeshPropagation | CacheRestore

  datatype CacheEntry = CacheEntry(record: DnsRecord, source: Source, cachedAt: Millis)

  datatype Conflict = Conflict(
    domain: string,
    activeOwner: string,
    rivalOwner: string,
    active: Fingerprint,
    rival: Fingerprint,
    detectedAt: Millis)

  datatype Cache = Cache(records: map<string, CacheEntry>, conflicts: map<string, seq<Conflict>>, updated: Millis)

  datatype Outcome =
    | Published(record: DnsRecord)
    | Updated(record: DnsRecord)
    | Duplicate(record: DnsRecord)
    | Refused(active: DnsRecord, incoming: DnsRecord, conflict: Conflict)
    | InvalidSignature
    | ExpiredRecord

  // ---- Operations as functions ------------------------------------------

  function ConflictsFor(c: Cache, domain: string): seq<Conflict> {
    if domain in c.conflicts then c.conflicts[domain] else []
  }

  predicate HasRival(conflicts: seq<Conflict>, rival: Fingerprint) {
    exists k :: 0 <= k < |conflicts| && conflicts[k].rival == rival
  }

  function RivalClaim(active: DnsRecord, r: DnsRecord, now: Millis): Conflict {
    Conflict(r.claim.domain, active.claim.owner, r.claim.owner, FingerprintOf(active), FingerprintOf(r), now)
  }

  function Noted(conflicts: seq<Conflict>, conflict: Conflict): seq<Conflict> {
    if HasRival(conflicts, conflict.rival) then conflicts else conflicts + [conflict]
  }

  function Decision(c: Cache, r: DnsRecord, now: Millis): Outcome {
    var d := r.claim.domain;
    if !Verifies(r) then InvalidSignature
    else if IsExpired(r, now) then ExpiredRecord
    else if d !in c.records || IsExpired(c.records[d].record, now) then Published(r)
    else
      var active := c.records[d].record;
      if FingerprintOf(active) == FingerprintOf(r) then Duplicate(active)
      else if active.claim.owner != r.claim.owner then Refused(active, r, RivalClaim(active, r, now))
      else if active.claim.createdAt >= r.claim.createdAt then Duplicate(active)
      else Updated(r)
  }

  function ApplyRecord(c: Cache, r: DnsRecord, source: Source, now: Millis): Cache {
    var d := r.claim.domain;
    match Decision(c, r, now)
    case Published(_) => c.(records := c.records[d := CacheEntry(r, source, now)], updated := now)
    case Updated(_) => c.(records := c.records[d := CacheEntry(r, source, now)], updated := now)
    case Refused(_, _, conflict) =>
      c.(conflicts := c.conflicts[d := Noted(ConflictsFor(c, d), conflict)], updated := now)
    case _ => c
  }

  function Expired(c: Cache, now: Millis): set<string> {
    set d | d in c.records && IsExpired(c.records[d].record, now)
  }

  function PurgeExpired(c: Cache, now: Millis): Cache {
    if Expired(c, now) == {} then c else c.(records := c.records - Expired(c, now), updated := now)
  }

  // ---- The cache in place -----------------------------------------------

  class PersistentVoidDns {
    var records: map<string, CacheEntry>
    var conflicts: map<string, seq<Conflict>>
    var updated: Millis

    function Value(): Cache
      reads this
    {
      Cache(records, conflicts, updated)
    }

    constructor ()
      ensures Value() == Cache(map[], map[], 0)
    {
      records, conflicts, updated := map[], map[], 0;
    }

    method Apply(r: DnsRecord, source: Source, now: Millis) returns (outcome: Outcome)
      modifies this
      ensures outcome == Decision(old(Value()), r, now)
      ensures Value() == ApplyRecord(old(Value()), r, source, now)
    {
      if !Verifies(r) {
        return InvalidSignature;
      }
      if IsExpired(r, now) {
        return ExpiredRecord;
      }
      var d := r.claim.domain;
      ghost var before := records;
      if d in records {
        var existing := records[d].record;
        if IsExpired(existing, now) {
          records := records - {d};
        } else if FingerprintOf(existing) == FingerprintOf(r) {
          return Duplicate(existing);
        } else if existing.claim.owner != r.claim.owner {
          var conflict := RivalClaim(existing, r, now);
          var known := if d in conflicts then conflicts[d] else [];
          if !HasRival(known, conflict.rival) {
            known := known + [conflict];
          }
          conflicts := conflicts[d := known];
          updated := now;
          return Refused(existing, r, conflict);
        } else if existing.claim.createdAt >= r.claim.createdAt {
          return Duplicate(existing);
        }
      }
      outcome := if d in records then Updated(r) else Published(r);
      records := records[d := CacheEntry(r, source, now)];
      assert records == before[d := CacheEntry(r, source, now)];
      updated := now;
    }

    method Purge(now: Millis) returns (expired: set<DnsRecord>)
      modifies this
      ensures Value() == PurgeExpired(old(Value()), now)
      ensures expired == set d | d in Expired(old(Value()), now) :: old(records)[d].record
    {
      var kept: map<string, CacheEntry> := map[];
      expired := {};
      var todo := records.Keys;
      while todo != {}
        invariant todo <= records.Keys && Value() == old(Value())
        invariant kept == map d | d in records && d !in todo && !IsExpired(records[d].record, now) :: records[d]
        invariant expired == set d | d in records && d !in todo && IsExpired(records[d].record, now) :: records[d].record
        decreases |todo|
      {
        var d :| d in todo;
        todo := todo - {d};
        if IsExpired(records[d].record, now) {
          expired := expired + {records[d].record};
        } else {
          kept := kept[d := records[d]];
        }
      }
      if expired != {} {
        assert kept == records - Expired(Value(), now);
        assert Expired(Value(), now) != {};
        records := kept;
        updated := now;
      } else {
        assert forall d :: d in Expired(Value(), now) ==> records[d].record in expired;
        assert kept == records;
      }
    }

    /** Purges, then looks the domain up. */
    method Resolve(domain: string, now: Millis) returns (found: Option<DnsRecord>)
      modifies this
      ensures Value() == PurgeExpired(old(Value()), now)
      ensures found.Some? <==> domain in old(records) && !IsExpired(old(records)[domain].record, now)
      ensures found.Some? ==> found.value == old(records)[domain].record
    {
      var _ := Purge(now);
      assert domain in Expired(old(Value()), now) <==> domain in old(records) && IsExpired(old(records)[domain].record, now);
      if domain in records {
        found := Some(records[domain].record);
      } else {
        found := None;
      }
    }
  }

  // ---- Runs -------------------------------------------------------------

  datatype Step = Arrive(record: DnsRecord, source: Source, now: Millis) | Sweep(now: Millis)

  function Take(c: Cache, s: Step): Cache {
    match s
    case Arrive(r, source, now) => ApplyRecord(c, r, source, now)
    case Sweep(now) => PurgeExpired(c, now)
  }

  function Run(c: Cache, steps: seq<Step>): Cache {
    if steps == [] then c else Take(Run(c, steps[..|steps| - 1]), steps[|steps| - 1])
  }

  /** Keys match domains, and no rival appears twice in a domain's evidence. */
  predicate Valid(c: Cache) {
    && (forall d :: d in c.records ==> c.records[d].record.claim.domain == d && Verifies(c.records[d].record))
    && (forall d :: d in c.conflicts ==> RivalsDistinct(c.conflicts[d]))
  }

  predicate RivalsDistinct(conflicts: seq<Conflict>) {
    forall j, k :: 0 <= j < k < |conflicts| ==> conflicts[j].rival != conflicts[k].rival
  }

  lemma TakeKeepsValid(c: Cache, s: Step)
    requires Valid(c)
    ensures Valid(Take(c, s))
  {
  }

  lemma {:induction false} RunKeepsValid(c: Cache, steps: seq<Step>)
    requires Valid(c)
    ensures Valid(Run(c, steps))
  {
    if steps != [] {
      RunKeepsValid(c, steps[..|steps| - 1]);
      TakeKeepsValid(Run(c, steps[..|steps| - 1]), steps[|steps| - 1]);
    }
  }

  // ---- Ownership --------------------------------------------------------

  predicate Live(c: Cache, d: string, now: Millis) {
    d in c.records && !IsExpired(c.records[d].record, now)
  }

  /** `before`'s record for `d` is still standing in `after`, or a newer one by the same owner. */
  predicate Upheld(before: Cache, after: Cache, d: string)
    requires d in before.records
  {
    && d in after.records
    && after.records[d].record.claim.owner == before.records[d].record.claim.owner
    && before.records[d].record.claim.createdAt <= after.records[d].record.claim.createdAt
  }

  lemma StepUpholds(c: Cache, s: Step, d: string)
    requires Live(c, d, s.now) && Valid(c)
    ensures Upheld(c, Take(c, s), d)
  {
  }

  /** The domain's record is live at the moment of each of the steps from `i` to `j`. */
  predicate LiveThroughout(c: Cache, steps: seq<Step>, i: nat, j: nat, d: string)
    requires i <= j <= |steps|
  {
    forall n :: i <= n < j ==> Live(Run(c, steps[..n]), d, steps[n].now)
  }

  lemma RunSnoc(c: Cache, steps: seq<Step>, n: nat)
    requires n < |steps|
    ensures Run(c, steps[..n + 1]) == Take(Run(c, steps[..n]), steps[n])
  {
    assert steps[..n + 1][..n] == steps[..n];
  }

  /** As long as the current record is live at every step, the owner stays and the
      creation time never decreases. */
  lemma {:induction false} LiveNamesKeepTheirOwner(c: Cache, steps: seq<Step>, i: nat, j: nat, d: string)
    requires Valid(c) && i <= j <= |steps| && LiveThroughout(c, steps, i, j, d)
    requires d in Run(c, steps[..i]).records
    ensures Upheld(Run(c, steps[..i]), Run(c, steps[..j]), d)
    decreases j - i
  {
    if i < j {
      LiveNamesKeepTheirOwner(c, steps, i, j - 1, d);
      RunKeepsValid(c, steps[..j - 1]);
      RunSnoc(c, steps, j - 1);
      StepUpholds(Run(c, steps[..j - 1]), steps[j - 1], d);
    }
  }

  /** A domain changes owner only after its record has expired: between two states with
      different owners lies a step at which the earlier owner still holds a record, and
      that record has expired. */
  lemma OwnerChangesOnlyAfterExpiry(c: Cache, steps: seq<Step>, i: nat, j: nat, d: string) returns (n: nat)
    requires Valid(c) && i <= j <= |steps|
    requires d in Run(c, steps[..i]).records && d in Run(c, steps[..j]).records
    requires Run(c, steps[..i]).records[d].record.claim.owner != Run(c, steps[..j]).records[d].record.claim.owner
    ensures i <= n < j && Upheld(Run(c, steps[..i]), Run(c, steps[..n]), d)
    ensures IsExpired(Run(c, steps[..n]).records[d].record, steps[n].now)
  {
    hide Run, Valid;
    n := i;
    while n < j && Live(Run(c, steps[..n]), d, steps[n].now)
      invariant i <= n <= j && LiveThroughout(c, steps, i, n, d)
    {
      n := n + 1;
    }
    LiveNamesKeepTheirOwner(c, steps, i, n, d);
  }

  // ---- When an owner keeps a name ---------------------------------------

  predicate Caches(c: Cache, a: DnsRecord) {
    a.claim.domain in c.records && c.records[a.claim.domain].record == a
  }

  /** The owner of `a` holds its name in `c`. */
  predicate HeldByOwnerOf(c: Cache, a: DnsRecord) {
    a.claim.domain in c.records && c.records[a.claim.domain].record.claim.owner == a.claim.owner
  }

  predicate OfSameOwner(r: DnsRecord, a: DnsRecord) {
    Verifies(r) && r.claim.domain == a.claim.domain && r.claim.owner == a.claim.owner
  }

  /** All steps happen before `a` expires, and the owner's arrivals come from `updates`;
      rivals' records and other names are arbitrary. */
  predicate BeforeExpiry(steps: seq<Step>, a: DnsRecord, updates: set<DnsRecord>) {
    forall k :: 0 <= k < |steps| ==>
      steps[k].now < a.claim.expiresAt && (steps[k].Arrive? && OfSameOwner(steps[k].record, a) ==> steps[k].record in updates)
  }

  predicate Steady(steps: seq<Step>) {
    forall j, k :: 0 <= j < k < |steps| ==> steps[j].now <= steps[k].now
  }

  /** Once `a` is cached, no run of a steady clock before its expiry takes the name away. */
  ghost predicate KeepsName(a: DnsRecord, updates: set<DnsRecord>) {
    forall c, steps :: Caches(c, a) && BeforeExpiry(steps, a, updates) && Steady(steps) ==> HeldByOwnerOf(Run(c, steps), a)
  }

  /** No later update that can ever be accepted expires before `a` does. */
  predicate NoneShorter(a: DnsRecord, updates: set<DnsRecord>) {
    forall r :: r in updates && a.claim.createdAt < r.claim.createdAt && 0 < r.claim.expiresAt ==>
      a.claim.expiresAt <= r.claim.expiresAt
  }

  /** The owner holds the name by `a` or by a later record that lives as long. */
  predicate Standing(c: Cache, a: DnsRecord) {
    && HeldByOwnerOf(c, a)
    && a.claim.createdAt <= c.records[a.claim.domain].record.claim.createdAt
    && a.claim.expiresAt <= c.records[a.claim.domain].record.claim.expiresAt
  }

  lemma StepKeepsStanding(c: Cache, s: Step, a: DnsRecord, updates: set<DnsRecord>)
    requires Standing(c, a) && NoneShorter(a, updates) && BeforeExpiry([s], a, updates)
    ensures Standing(Take(c, s), a)
  {
    assert [s][0] == s;
  }

  /** Whatever the clock reads before `a` expires, updates that live as long keep the name. */
  lemma {:induction false} LongUpdatesKeepName(c: Cache, steps: seq<Step>, a: DnsRecord, updates: set<DnsRecord>)
    requires Standing(c, a) && NoneShorter(a, updates) && BeforeExpiry(steps, a, updates)
    ensures Standing(Run(c, steps), a)
  {
    hide Standing, NoneShorter;
    if steps != [] {
      var n := |steps| - 1;
      LongUpdatesKeepName(c, steps[..n], a, updates);
      assert [steps[n]][0] == steps[n];
      StepKeepsStanding(Run(c, steps[..n]), steps[n], a, updates);
    }
  }

  /** A rival's record that lives until `a` would have expired. */
  function RivalTo(a: DnsRecord): DnsRecord {
    var claim := a.claim.(owner := a.claim.owner + "'");
    DnsRecord(claim, SignedBy(claim.owner, claim))
  }

  /** The owner's shorter update arrives; when it expires, the rival takes the name. */
  lemma RivalTakesOver(a: DnsRecord, r: DnsRecord, updates: set<DnsRecord>) returns (c: Cache, steps: seq<Step>)
    requires r in updates && OfSameOwner(r, a)
    requires a.claim.createdAt < r.claim.createdAt && 0 < r.claim.expiresAt < a.claim.expiresAt
    ensures Caches(c, a) && BeforeExpiry(steps, a, updates) && Steady(steps)
    ensures !HeldByOwnerOf(Run(c, steps), a)
  {
    var d, rival := a.claim.domain, RivalTo(a);
    assert rival.claim.owner[|a.claim.owner|] == '\'';
    c := Cache(map[d := CacheEntry(a, LocalPublish, 0)], map[], 0);
    var first, second := Arrive(r, LocalPublish, 0), Arrive(rival, MeshPropagation, r.claim.expiresAt);
    steps := [first, second];
    RunSnoc(c, steps, 0);
    RunSnoc(c, steps, 1);
    assert steps[..0] == [] && steps[..2] == steps;
    assert Take(c, first).records[d].record == r;
  }

  /** An owner's own shorter-lived update releases a name early, and nothing else does:
      a cached record keeps its name until it expires, in every run and whatever rivals
      send, exactly when none of the owner's later updates expires before it. */
  lemma ShorterUpdateReleasesName(a: DnsRecord, updates: set<DnsRecord>)
    requires forall r :: r in updates ==> OfSameOwner(r, a)
    ensures KeepsName(a, updates) <==> NoneShorter(a, updates)
  {
    if NoneShorter(a, updates) {
      forall c, steps | Caches(c, a) && BeforeExpiry(steps, a, updates) && Steady(steps) ensures HeldByOwnerOf(Run(c, steps), a) {
        LongUpdatesKeepName(c, steps, a, updates);
      }
    } else {
      var r :| r in updates && a.claim.createdAt < r.claim.createdAt && 0 < r.claim.expiresAt < a.claim.expiresAt;
      var c, steps := RivalTakesOver(a, r, updates);
    }
  }

  // ---- Conflict evidence ------------------------------------------------

  /** The positions of a rival's fingerprint in the evidence. */
  function EntriesFor(conflicts: seq<Conflict>, rival: Fingerprint): set<nat> {
    set k: nat | k < |conflicts| && conflicts[k].rival == rival
  }

  lemma SingleEntry(conflicts: seq<Conflict>, rival: Fingerprint)
    requires RivalsDistinct(conflicts) && HasRival(conflicts, rival)
    ensures |EntriesFor(conflicts, rival)| == 1
  {
    var k: nat :| k < |conflicts| && conflicts[k].rival == rival;
    assert EntriesFor(conflicts, rival) == {k};
  }

  lemma NotedHasRival(conflicts: seq<Conflict>, conflict: Conflict, later: seq<Conflict>)
    requires Noted(conflicts, conflict) <= later
    ensures HasRival(later, conflict.rival)
  {
    var noted := Noted(conflicts, conflict);
    if HasRival(conflicts, conflict.rival) {
      var k :| 0 <= k < |conflicts| && conflicts[k].rival == conflict.rival;
      assert later[k] == noted[k];
    } else {
      assert later[|conflicts|] == noted[|conflicts|];
    }
  }

  lemma StepKeepsEvidence(c: Cache, s: Step, d: string)
    ensures ConflictsFor(c, d) <= ConflictsFor(Take(c, s), d)
  {
  }

  lemma PrefixTransitive<T>(a: seq<T>, b: seq<T>, c: seq<T>)
    requires a <= b && b <= c
    ensures a <= c
  {
  }

  lemma {:induction false} EvidenceOnlyGrows(c: Cache, steps: seq<Step>, i: nat, j: nat, d: string)
    requires i <= j <= |steps|
    ensures ConflictsFor(Run(c, steps[..i]), d) <= ConflictsFor(Run(c, steps[..j]), d)
    decreases j - i
  {
    hide Run, Take, ConflictsFor;
    if i < j {
      var before, last := Run(c, steps[..i]), Run(c, steps[..j - 1]);
      EvidenceOnlyGrows(c, steps, i, j - 1, d);
      RunSnoc(c, steps, j - 1);
      StepKeepsEvidence(last, steps[j - 1], d);
      PrefixTransitive(ConflictsFor(before, d), ConflictsFor(last, d), ConflictsFor(Run(c, steps[..j]), d));
    }
  }

  /** A refused rival claim has exactly one entry in the evidence, from the step
      that refused it to the end of the run, however often it is repeated. */
  lemma RefusedClaimLeavesOneEntry(c: Cache, steps: seq<Step>, i: nat, j: nat)
    requires Valid(c) && i < j <= |steps| && steps[i].Arrive?
    requires Decision(Run(c, steps[..i]), steps[i].record, steps[i].now).Refused?
    ensures |EntriesFor(ConflictsFor(Run(c, steps[..j]), steps[i].record.claim.domain), FingerprintOf(steps[i].record))| == 1
  {
    var r, d := steps[i].record, steps[i].record.claim.domain;
    var before := Run(c, steps[..i]);
    RunSnoc(c, steps, i);
    EvidenceOnlyGrows(c, steps, i + 1, j, d);
    RunKeepsValid(c, steps[..j]);
    var now := ConflictsFor(Run(c, steps[..j]), d);
    NotedHasRival(ConflictsFor(before, d), Decision(before, r, steps[i].now).conflict, now);
    assert RivalsDistinct(now);
    SingleEntry(now, r);
  }

  // ---- Convergence of one owner's records -------------------------------

  /** Verified records of one owner for one domain. */
  predicate OneOwner(records: set<DnsRecord>, d: string, owner: string) {
    forall r :: r in records ==> Verifies(r) && r.claim.domain == d && r.claim.owner == owner
  }

  predicate DistinctCreation(records: set<DnsRecord>) {
    forall r, s :: r in records && s in records && r.claim.createdAt == s.claim.createdAt ==> r == s
  }

  predicate ArrivalsFrom(steps: seq<Step>, records: set<DnsRecord>) {
    forall n :: 0 <= n < |steps| ==> steps[n].Arrive? && steps[n].record in records
  }

  /** At no step is any of the records expired. */
  predicate AllLive(steps: seq<Step>, records: set<DnsRecord>) {
    forall n, r :: 0 <= n < |steps| && r in records ==> !IsExpired(r, steps[n].now)
  }

  ghost function Received(steps: seq<Step>): set<DnsRecord> {
    set s | s in steps && s.Arrive? :: s.record
  }

  /** The cache holds the greatest creation time among `records`. */
  predicate HoldsNewest(c: Cache, d: string, records: set<DnsRecord>) {
    && (records == {} ==> d !in c.records)
    && (records != {} ==>
          && d in c.records && c.records[d].record in records
          && forall r :: r in records ==> r.claim.createdAt <= c.records[d].record.claim.createdAt)
  }

  lemma ArrivalKeepsNewest(c: Cache, d: string, owner: string, seen: set<DnsRecord>, r: DnsRecord, source: Source, now: Millis)
    requires OneOwner(seen + {r}, d, owner) && HoldsNewest(c, d, seen)
    requires forall x :: x in seen + {r} ==> !IsExpired(x, now)
    ensures HoldsNewest(ApplyRecord(c, r, source, now), d, seen + {r})
  {
    assert r in seen + {r};
    if seen != {} {
      assert c.records[d].record in seen + {r};
    }
  }

  lemma {:induction false} RunHoldsNewest(c: Cache, steps: seq<Step>, d: string, owner: string, records: set<DnsRecord>)
    requires d !in c.records && OneOwner(records, d, owner)
    requires ArrivalsFrom(steps, records) && AllLive(steps, records)
    ensures HoldsNewest(Run(c, steps), d, Received(steps))
  {
    if steps != [] {
      var init, last := steps[..|steps| - 1], steps[|steps| - 1];
      RunHoldsNewest(c, init, d, owner, records);
      assert steps == init + [last];
      assert Received(steps) == Received(init) + {last.record};
      assert Received(steps) <= records;
      ArrivalKeepsNewest(Run(c, init), d, owner, Received(init), last.record, last.source, last.now);
    } else {
      assert Received(steps) == {};
    }
  }

  /** Whatever one owner's live records arrive, in any order and with any
      repetition, the same set of records leaves the same record in the cache. */
  ghost predicate Convergent(records: set<DnsRecord>, d: string) {
    forall c: Cache, left, right ::
      d !in c.records && ArrivalsFrom(left, records) && AllLive(left, records)
      && ArrivalsFrom(right, records) && AllLive(right, records)
      && Received(left) == Received(right) && left != []
      ==> d in Run(c, left).records && d in Run(c, right).records
          && Run(c, left).records[d].record == Run(c, right).records[d].record
  }

  lemma DistinctConverges(records: set<DnsRecord>, d: string, owner: string, c: Cache, left: seq<Step>, right: seq<Step>)
    requires OneOwner(records, d, owner) && DistinctCreation(records) && d !in c.records
    requires ArrivalsFrom(left, records) && AllLive(left, records) && ArrivalsFrom(right, records) && AllLive(right, records)
    requires Received(left) == Received(right) && left != []
    ensures d in Run(c, left).records && d in Run(c, right).records
    ensures Run(c, left).records[d].record == Run(c, right).records[d].record
    ensures forall r :: r in Received(left) ==> r.claim.createdAt <= Run(c, left).records[d].record.claim.createdAt
  {
    RunHoldsNewest(c, left, d, owner, records);
    RunHoldsNewest(c, right, d, owner, records);
    assert left[0] in left && left[0].record in Received(left);
    assert Received(left) <= records;
  }

  lemma TiedRecordsDiverge(records: set<DnsRecord>, d: string, owner: string, r: DnsRecord, s: DnsRecord, now: Millis)
    requires OneOwner(records, d, owner) && r in records && s in records && r != s
    requires r.claim.createdAt == s.claim.createdAt
    requires forall x :: x in records ==> !IsExpired(x, now)
    ensures !Convergent(records, d)
  {
    var c := Cache(map[], map[], 0);
    var a, b := Arrive(r, MeshPropagation, now), Arrive(s, MeshPropagation, now);
    var left, right := [a, b], [b, a];
    FirstWins(c, a, b, d);
    FirstWins(c, b, a, d);
    assert Received(left) == {r, s};
    assert Received(right) == {r, s};
    DivergesAt(records, d, c, left, right);
  }

  lemma FirstWins(c: Cache, a: Step, b: Step, d: string)
    requires c == Cache(map[], map[], 0) && a.Arrive? && b.Arrive? && a.now == b.now
    requires Verifies(a.record) && Verifies(b.record) && !IsExpired(a.record, a.now) && !IsExpired(b.record, a.now)
    requires a.record.claim.domain == d == b.record.claim.domain && a.record.claim.owner == b.record.claim.owner
    requires a.record.claim.createdAt == b.record.claim.createdAt
    ensures d in Run(c, [a, b]).records && Run(c, [a, b]).records[d].record == a.record
  {
    assert [a, b][..1] == [a] && [a][..0] == [];
    assert Run(c, [a]) == Take(c, a);
  }

  lemma DivergesAt(records: set<DnsRecord>, d: string, c: Cache, left: seq<Step>, right: seq<Step>)
    requires d !in c.records && ArrivalsFrom(left, records) && AllLive(left, records)
    requires ArrivalsFrom(right, records) && AllLive(right, records) && Received(left) == Received(right) && left != []
    requires d in Run(c, left).records && d in Run(c, right).records
    requires Run(c, left).records[d].record != Run(c, right).records[d].record
    ensures !Convergent(records, d)
  {
  }

  /** One owner's jointly live records converge under every order and repetition
      exactly when their creation times are distinct. */
  lemma ConvergentIffDistinctCreation(records: set<DnsRecord>, d: string, owner: string, now: Millis)
    requires OneOwner(records, d, owner)
    requires forall r :: r in records ==> !IsExpired(r, now)
    ensures Convergent(records, d) <==> DistinctCreation(records)
  {
    if DistinctCreation(records) {
      forall c: Cache, left, right
        | d !in c.records && ArrivalsFrom(left, records) && AllLive(left, records)
          && ArrivalsFrom(right, records) && AllLive(right, records)
          && Received(left) == Received(right) && left != []
        ensures d in Run(c, left).records && d in Run(c, right).records
                && Run(c, left).records[d].record == Run(c, right).records[d].record
      {
        DistinctConverges(records, d, owner, c, left, right);
      }
    } else {
      var r, s :| r in records && s in records && r.claim.createdAt == s.claim.createdAt && r != s;
      TiedRecordsDiverge(records, d, owner, r, s, now);
    }
  }
}
