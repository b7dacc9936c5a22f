// What the name cache says about the past (core/dns/src/lib.rs): whom its conflict
// evidence names, where its records came from, and how it answers.

module Evidence {
  import opened Prelude
  import opened Dns

  // ---- Answers ----------------------------------------------------------

  /** The record is signed by the owner it names, over exactly its content. */
  predicate Signed(r: DnsRecord) {
    r.signature == SignedBy(r.claim.owner, r.claim)
  }

  /** `held` is cached for the domain and has not expired at `now`. */
  predicate Holds(c: Cache, domain: string, held: DnsRecord, now: Millis) {
    domain in c.records && c.records[domain].record == held && now < held.claim.expiresAt
  }

  /** Each answer is given exactly in its case: the signature is judged before the expiry,
      and only live records stand in a claim's way. */
  lemma AnswersExactly(c: Cache, r: DnsRecord, now: Millis)
    ensures var answer, d := Decision(c, r, now), r.claim.domain;
            && (answer == InvalidSignature <==> !Signed(r))
            && (answer == ExpiredRecord <==> Signed(r) && r.claim.expiresAt <= now)
            && (answer == Published(r) <==>
                  Signed(r) && now < r.claim.expiresAt && forall held :: !Holds(c, d, held, now))
            && (answer == Updated(r) <==>
                  Signed(r) && now < r.claim.expiresAt
                  && exists held :: Holds(c, d, held, now) && held.claim.owner == r.claim.owner && held.claim.createdAt < r.claim.createdAt)
            && (answer.Refused? <==>
                  Signed(r) && now < r.claim.expiresAt && exists held :: Holds(c, d, held, now) && held.claim.owner != r.claim.owner)
  {
    if r.claim.domain in c.records {
      var held := c.records[r.claim.domain].record;
      assert Holds(c, r.claim.domain, held, now) <==> now < held.claim.expiresAt;
    }
  }

  // ---- Evidence ---------------------------------------------------------

  /** At step `i` the claim was refused, for the record then held. */
  ghost predicate RefusedAt(c: Cache, steps: seq<Step>, i: nat, d: string, e: Conflict) {
    && i < |steps| && steps[i].Arrive?
    && var r, now := steps[i].record, steps[i].now;
       && r.claim.domain == d && Signed(r) && now < r.claim.expiresAt
       && exists held :: Holds(Run(c, steps[..i]), d, held, now) && held.claim.owner != r.claim.owner
                         && e == Conflict(d, held.claim.owner, r.claim.owner, held, r, now)
  }

  lemma StepEvidence(c: Cache, s: Step, d: string)
    ensures var before, after := ConflictsFor(c, d), ConflictsFor(Take(c, s), d);
            before <= after && |after| <= |before| + 1
    ensures var before, after := ConflictsFor(c, d), ConflictsFor(Take(c, s), d);
            |after| > |before| ==>
              && s.Arrive? && s.record.claim.domain == d && Signed(s.record) && s.now < s.record.claim.expiresAt
              && d in c.records && var held := c.records[d].record;
                 && Holds(c, d, held, s.now) && held.claim.owner != s.record.claim.owner
                 && after[|before|] == Conflict(d, held.claim.owner, s.record.claim.owner, held, s.record, s.now)
  {
  }

  lemma {:induction false} RefusedEarlier(c: Cache, steps: seq<Step>, i: nat, d: string, e: Conflict)
    requires steps != [] && RefusedAt(c, steps[..|steps| - 1], i, d, e)
    ensures RefusedAt(c, steps, i, d, e)
  {
    assert steps[..|steps| - 1][..i] == steps[..i];
  }

  /** Evidence is true: every entry a run adds names the owner of the record that was held
      when the claim was refused, the owner who claimed, both records and the time. */
  lemma {:induction false} EvidenceIsTrue(c: Cache, steps: seq<Step>, d: string, k: nat) returns (i: nat)
    requires |ConflictsFor(c, d)| <= k < |ConflictsFor(Run(c, steps), d)|
    ensures RefusedAt(c, steps, i, d, ConflictsFor(Run(c, steps), d)[k])
    decreases steps
  {
    hide Take, ConflictsFor, RefusedAt;
    var n := |steps| - 1;
    var before := Run(c, steps[..n]);
    StepEvidence(before, steps[n], d);
    if k < |ConflictsFor(before, d)| {
      i := EvidenceIsTrue(c, steps[..n], d, k);
      RefusedEarlier(c, steps, i, d, ConflictsFor(before, d)[k]);
    } else {
      i := n;
      LastStepRefused(c, steps, d);
    }
  }

  lemma LastStepRefused(c: Cache, steps: seq<Step>, d: string)
    requires steps != [] && |ConflictsFor(Run(c, steps[..|steps| - 1]), d)| < |ConflictsFor(Run(c, steps), d)|
    ensures var entries := ConflictsFor(Run(c, steps), d); RefusedAt(c, steps, |steps| - 1, d, entries[|entries| - 1])
  {
    hide Take, ConflictsFor;
    StepEvidence(Run(c, steps[..|steps| - 1]), steps[|steps| - 1], d);
  }

  /** A refusal names, in its answer, the owner of the record held before the step. */
  lemma RefusalNamesHolder(c: Cache, r: DnsRecord, now: Millis)
    requires Decision(c, r, now).Refused?
    ensures var answer, d := Decision(c, r, now), r.claim.domain;
            && d in c.records && answer.active == c.records[d].record && answer.incoming == r
            && answer.conflict == Conflict(d, c.records[d].record.claim.owner, r.claim.owner, c.records[d].record, r, now)
  {
  }

  /** The claim `r` was refused at step `i`. */
  ghost predicate ClaimRefused(c: Cache, steps: seq<Step>, i: nat, r: DnsRecord) {
    i < |steps| && steps[i].Arrive? && steps[i].record == r && Decision(Run(c, steps[..i]), r, steps[i].now).Refused?
  }

  /** Evidence is exact: started without any, a cache holds an entry against a claim if and
      only if that claim was refused. */
  lemma EvidenceIffRefused(c: Cache, steps: seq<Step>, d: string, r: DnsRecord)
    requires Valid(c) && ConflictsFor(c, d) == [] && r.claim.domain == d
    ensures HasRival(ConflictsFor(Run(c, steps), d), r) <==> exists i :: ClaimRefused(c, steps, i, r)
  {
    hide Run, ConflictsFor;
    var entries := ConflictsFor(Run(c, steps), d);
    if HasRival(entries, r) {
      var k :| 0 <= k < |entries| && entries[k].rival == r;
      var i := EvidenceIsTrue(c, steps, d, k);
      assert ClaimRefused(c, steps, i, r);
    }
    if exists i :: ClaimRefused(c, steps, i, r) {
      var i :| ClaimRefused(c, steps, i, r);
      RefusedClaimLeavesOneEntry(c, steps, i, |steps|);
      assert steps[..|steps|] == steps;
      var k :| k in EntriesFor(entries, r);
    }
  }

  // ---- Provenance of records --------------------------------------------

  /** The entry arrived, with its source and at its time, at step `i`. */
  predicate ArrivedAt(steps: seq<Step>, i: nat, d: string, e: CacheEntry) {
    && i < |steps| && steps[i] == Arrive(e.record, e.source, e.cachedAt)
    && e.record.claim.domain == d && Signed(e.record) && e.cachedAt < e.record.claim.expiresAt
  }

  lemma StepRecords(c: Cache, s: Step, d: string)
    requires d in Take(c, s).records
    ensures (d in c.records && Take(c, s).records[d] == c.records[d]) || ArrivedAt([s], 0, d, Take(c, s).records[d])
  {
  }

  /** Every cached entry was there at the start, or arrived: signed by the owner it names,
      unexpired, from the source and at the time it says. */
  lemma {:induction false} RecordsArrived(c: Cache, steps: seq<Step>, d: string)
    requires d in Run(c, steps).records
    ensures (d in c.records && Run(c, steps).records[d] == c.records[d])
            || exists i :: ArrivedAt(steps, i, d, Run(c, steps).records[d])
    decreases steps
  {
    hide Take;
    if steps != [] {
      var n, e := |steps| - 1, Run(c, steps).records[d];
      var before := Run(c, steps[..n]);
      StepRecords(before, steps[n], d);
      if d in before.records && before.records[d] == e {
        RecordsArrived(c, steps[..n], d);
        if i :| ArrivedAt(steps[..n], i, d, e) {
          assert ArrivedAt(steps, i, d, e);
        }
      } else {
        assert ArrivedAt(steps, n, d, e);
      }
    }
  }

  // ---- The time of the last change --------------------------------------

  /** A step changes nothing at all, or dates its change. */
  lemma ChangesAreDated(c: Cache, s: Step)
    ensures Take(c, s) == c || Take(c, s).updated == s.now
    ensures s.Arrive? && (!Signed(s.record) || s.record.claim.expiresAt <= s.now || Holds(c, s.record.claim.domain, s.record, s.now))
            ==> Take(c, s) == c
  {
  }
}
