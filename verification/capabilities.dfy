// Capability negotiation (core/runtime/src/lib.rs): the permission records of the
// runtime shell, the negotiation that consults and extends them, and explicit
// grants. Decisions are sticky: only a grant changes a recorded one.

module Capabilities {
  import opened Prelude

  /** Who asks for what, where: the identity of a permission record. */
  datatype Key = Key(surfaceId: string, peerOwner: string, capability: string)

  datatype Grant = Grant(key: Key, allowed: bool, persisted: bool, requestedAt: Millis, decidedAt: Millis)

  /** A registered surface and, for gateways, its domain. */
  datatype Registration = Registration(surfaceId: string, gateway: bool, domain: string)

  datatype TrustState = StateTrusted | Warning | Pending | Denied

  datatype TrustLevel = LevelTrusted | Restricted | Untrusted

  datatype Policy = Policy(gatewayDomain: string, state: TrustState, level: TrustLevel)

  /** What the runtime believes about gateways at the time of a negotiation. */
  datatype Trust = Trust(registry: seq<Registration>, policies: seq<Policy>)

  // ---- Defaults for unrecorded capabilities -----------------------------

  predicate IsSafe(capability: string) {
    || capability in {"messaging", "encrypted-sessions", "chat/direct-e2ee", "dns/addressable", "routing/void-uri",
                      "service/chat", "surface/messaging", "surface/room-access", "surface/notifications",
                      "runtime/session-access"}
    || "service/" <= capability
  }

  /** The domain of the first gateway registered under the surface id. */
  function GatewayDomain(registry: seq<Registration>, surfaceId: string): Option<string> {
    if registry == [] then None
    else if registry[0].surfaceId == surfaceId && registry[0].gateway then Some(registry[0].domain)
    else GatewayDomain(registry[1..], surfaceId)
  }

  /** The first policy for a domain decides; without one it is not trusted. */
  predicate DomainTrusted(policies: seq<Policy>, domain: string) {
    policies != []
    && if policies[0].gatewayDomain == domain then policies[0].state.StateTrusted? && policies[0].level.LevelTrusted?
       else DomainTrusted(policies[1..], domain)
  }

  predicate GatewayTrusts(trust: Trust, key: Key) {
    && "gateway." <= key.capability
    && GatewayDomain(trust.registry, key.surfaceId).Some?
    && DomainTrusted(trust.policies, GatewayDomain(trust.registry, key.surfaceId).value)
  }

  /** `autoSafe` is the configuration's choice to grant safe capabilities unasked. */
  predicate DefaultVerdict(trust: Trust, autoSafe: bool, key: Key) {
    GatewayTrusts(trust, key) || (autoSafe && IsSafe(key.capability))
  }

  // ---- Permission records -----------------------------------------------

  /** The position of the first record with the key. */
  function Find(permissions: seq<Grant>, key: Key): (r: Option<nat>)
    ensures r.Some? ==> r.value < |permissions| && permissions[r.value].key == key
    ensures r.None? <==> forall k :: 0 <= k < |permissions| ==> permissions[k].key != key
  {
    if permissions == [] then None
    else if permissions[0].key == key then Some(0)
    else
      match Find(permissions[1..], key)
      case None => None
      case Some(k) => Some(k + 1)
  }

  function Lookup(permissions: seq<Grant>, key: Key): (r: Option<Grant>)
    ensures r.Some? ==> r.value.key == key && r.value in permissions
  {
    match Find(permissions, key)
    case None => None
    case Some(k) => Some(permissions[k])
  }

  /** The recorded decision about a key. */
  function Recorded(permissions: seq<Grant>, key: Key): Option<bool> {
    if Lookup(permissions, key).Some? then Some(Lookup(permissions, key).value.allowed) else None
  }

  function Upsert(permissions: seq<Grant>, grant: Grant): seq<Grant> {
    match Find(permissions, grant.key)
    case None => permissions + [grant]
    case Some(k) => permissions[k := grant]
  }

  predicate UniqueKeys(permissions: seq<Grant>) {
    forall i, j :: 0 <= i < j < |permissions| ==> permissions[i].key != permissions[j].key
  }

  lemma {:induction false} FindConcat(a: seq<Grant>, b: seq<Grant>, key: Key)
    ensures Find(a, key).Some? ==> Find(a + b, key) == Find(a, key)
    ensures Find(a, key).None? ==> Find(a + b, key) == (match Find(b, key) case None => None case Some(k) => Some(|a| + k))
    decreases a
  {
    if a == [] {
      assert a + b == b;
    } else {
      assert (a + b)[1..] == a[1..] + b;
      FindConcat(a[1..], b, key);
    }
  }

  lemma {:induction false} FindUpdated(permissions: seq<Grant>, at: nat, grant: Grant, key: Key)
    requires at < |permissions| && permissions[at].key == grant.key
    ensures Find(permissions[at := grant], key) == Find(permissions, key)
    decreases permissions
  {
    var updated := permissions[at := grant];
    if at > 0 {
      assert updated[1..] == permissions[1..][at - 1 := grant];
      FindUpdated(permissions[1..], at - 1, grant, key);
    } else {
      assert updated[1..] == permissions[1..];
    }
  }

  /** Upserting answers for its own key and for no other. */
  lemma LookupOfUpsert(permissions: seq<Grant>, grant: Grant, key: Key)
    ensures Lookup(Upsert(permissions, grant), key) == if key == grant.key then Some(grant) else Lookup(permissions, key)
  {
    match Find(permissions, grant.key)
    case None => FindConcat(permissions, [grant], key);
    case Some(at) => FindUpdated(permissions, at, grant, key);
  }

  lemma UpsertKeepsUnique(permissions: seq<Grant>, grant: Grant)
    requires UniqueKeys(permissions)
    ensures UniqueKeys(Upsert(permissions, grant))
  {
  }

  // ---- Operations on the records ----------------------------------------

  /** The record an explicit grant leaves: a new one, or the old one re-decided. */
  function Decided(permissions: seq<Grant>, key: Key, allowed: bool, now: Millis): Grant {
    match Lookup(permissions, key)
    case None => Grant(key, allowed, true, now, now)
    case Some(g) => g.(allowed := allowed, persisted := true, decidedAt := now)
  }

  /** The verdict on a key: as recorded, or by default. */
  predicate Verdict(permissions: seq<Grant>, key: Key, trust: Trust, autoSafe: bool) {
    if Recorded(permissions, key).Some? then Recorded(permissions, key).value else DefaultVerdict(trust, autoSafe, key)
  }

  /** The record one requested capability leaves. */
  function Negotiated(permissions: seq<Grant>, key: Key, trust: Trust, autoSafe: bool, now: Millis): Grant {
    var allowed := Verdict(permissions, key, trust, autoSafe);
    Grant(key, allowed, allowed && IsSafe(key.capability), now, now)
  }

  datatype Request = Request(surfaceId: string, peerOwner: string, requested: seq<string>, trust: Trust, now: Millis)

  /** The records after a negotiation, one requested capability at a time. */
  function NegotiateAll(permissions: seq<Grant>, req: Request, autoSafe: bool): seq<Grant>
    decreases |req.requested|
  {
    if req.requested == [] then permissions
    else
      var key := Key(req.surfaceId, req.peerOwner, req.requested[0]);
      var grant := Negotiated(permissions, key, req.trust, autoSafe, req.now);
      NegotiateAll(Upsert(permissions, grant), req.(requested := req.requested[1..]), autoSafe)
  }

  /** The requested capabilities with a negative verdict, in order, repeats included. */
  function Rejected(permissions: seq<Grant>, req: Request, autoSafe: bool): seq<string>
    decreases |req.requested|
  {
    if req.requested == [] then []
    else
      var key := Key(req.surfaceId, req.peerOwner, req.requested[0]);
      (if Verdict(permissions, key, req.trust, autoSafe) then [] else [req.requested[0]])
      + Rejected(permissions, req.(requested := req.requested[1..]), autoSafe)
  }

  /** The grants a negotiation reports: one per requested capability. */
  function Reported(permissions: seq<Grant>, req: Request, autoSafe: bool): seq<Grant> {
    seq(|req.requested|, k requires 0 <= k < |req.requested| =>
      Negotiated(permissions, Key(req.surfaceId, req.peerOwner, req.requested[k]), req.trust, autoSafe, req.now))
  }

  predicate Concerns(req: Request, key: Key) {
    req.surfaceId == key.surfaceId && req.peerOwner == key.peerOwner && key.capability in req.requested
  }

  // ---- Negotiation decides each key once --------------------------------

  lemma UpsertNegotiated(permissions: seq<Grant>, asked: Key, key: Key, trust: Trust, autoSafe: bool, now: Millis)
    ensures var after := Upsert(permissions, Negotiated(permissions, asked, trust, autoSafe, now));
            && Recorded(after, key)
            == (if key == asked then Some(Verdict(permissions, key, trust, autoSafe)) else Recorded(permissions, key))
            && Verdict(after, key, trust, autoSafe) == Verdict(permissions, key, trust, autoSafe)
  {
    LookupOfUpsert(permissions, Negotiated(permissions, asked, trust, autoSafe, now), key);
  }

  /** A negotiation keeps every recorded decision, and records the default for the
      requested capabilities that had none. */
  lemma {:induction false} NegotiationRecords(permissions: seq<Grant>, req: Request, autoSafe: bool, key: Key)
    ensures Recorded(NegotiateAll(permissions, req, autoSafe), key)
         == if Concerns(req, key) then Some(Verdict(permissions, key, req.trust, autoSafe)) else Recorded(permissions, key)
    decreases |req.requested|
  {
    hide Recorded, Verdict, Upsert, Negotiated;
    if req.requested != [] {
      var asked := Key(req.surfaceId, req.peerOwner, req.requested[0]);
      var rest := req.(requested := req.requested[1..]);
      var after := Upsert(permissions, Negotiated(permissions, asked, req.trust, autoSafe, req.now));
      UpsertNegotiated(permissions, asked, key, req.trust, autoSafe, req.now);
      NegotiationRecords(after, rest, autoSafe, key);
      assert Concerns(req, key) <==> key == asked || Concerns(rest, key);
    }
  }

  /** After a negotiation every requested record says what was decided, and counts as
      persisted exactly when it is allowed and safe, whatever it said before. */
  lemma {:induction false} NegotiationRewrites(permissions: seq<Grant>, req: Request, autoSafe: bool, key: Key)
    requires Concerns(req, key)
    ensures Lookup(NegotiateAll(permissions, req, autoSafe), key)
         == Some(Negotiated(permissions, key, req.trust, autoSafe, req.now))
    decreases |req.requested|
  {
    hide Lookup, Upsert;
    var asked := Key(req.surfaceId, req.peerOwner, req.requested[0]);
    var rest := req.(requested := req.requested[1..]);
    var grant := Negotiated(permissions, asked, req.trust, autoSafe, req.now);
    var after := Upsert(permissions, grant);
    LookupOfUpsert(permissions, grant, key);
    if Concerns(rest, key) {
      NegotiationRewrites(after, rest, autoSafe, key);
    } else {
      assert key == asked;
      NegotiationSkips(after, rest, autoSafe, key);
    }
  }

  lemma {:induction false} NegotiationSkips(permissions: seq<Grant>, req: Request, autoSafe: bool, key: Key)
    requires !Concerns(req, key)
    ensures Lookup(NegotiateAll(permissions, req, autoSafe), key) == Lookup(permissions, key)
    decreases |req.requested|
  {
    hide Lookup, Upsert;
    if req.requested != [] {
      var asked := Key(req.surfaceId, req.peerOwner, req.requested[0]);
      var grant := Negotiated(permissions, asked, req.trust, autoSafe, req.now);
      assert key != asked;
      LookupOfUpsert(permissions, grant, key);
      NegotiationSkips(Upsert(permissions, grant), req.(requested := req.requested[1..]), autoSafe, key);
    }
  }

  lemma {:induction false} NegotiationKeepsUnique(permissions: seq<Grant>, req: Request, autoSafe: bool)
    requires UniqueKeys(permissions)
    ensures UniqueKeys(NegotiateAll(permissions, req, autoSafe))
    decreases |req.requested|
  {
    if req.requested != [] {
      var grant := Negotiated(permissions, Key(req.surfaceId, req.peerOwner, req.requested[0]), req.trust, autoSafe, req.now);
      UpsertKeepsUnique(permissions, grant);
      NegotiationKeepsUnique(Upsert(permissions, grant), req.(requested := req.requested[1..]), autoSafe);
    }
  }

  // ---- Turns of the negotiation loop ------------------------------------

  function Tail(req: Request, i: nat): Request
    requires i <= |req.requested|
  {
    req.(requested := req.requested[i..])
  }

  function KeyAt(req: Request, i: nat): Key
    requires i < |req.requested|
  {
    Key(req.surfaceId, req.peerOwner, req.requested[i])
  }

  ghost predicate SameVerdicts(a: seq<Grant>, b: seq<Grant>, trust: Trust, autoSafe: bool) {
    forall key :: Verdict(a, key, trust, autoSafe) == Verdict(b, key, trust, autoSafe)
  }

  lemma SameVerdictsReflexive(permissions: seq<Grant>, trust: Trust, autoSafe: bool)
    ensures SameVerdicts(permissions, permissions, trust, autoSafe)
  {
  }

  lemma NegotiateTurn(permissions: seq<Grant>, start: seq<Grant>, req: Request, i: nat, autoSafe: bool)
    requires i < |req.requested| && SameVerdicts(permissions, start, req.trust, autoSafe)
    ensures var grant := Negotiated(permissions, KeyAt(req, i), req.trust, autoSafe, req.now);
            && NegotiateAll(permissions, Tail(req, i), autoSafe)
            == NegotiateAll(Upsert(permissions, grant), Tail(req, i + 1), autoSafe)
            && grant == Reported(start, req, autoSafe)[i]
            && SameVerdicts(Upsert(permissions, grant), start, req.trust, autoSafe)
  {
    var key := KeyAt(req, i);
    assert req.requested[i..][1..] == req.requested[i + 1..];
    var grant := Negotiated(permissions, key, req.trust, autoSafe, req.now);
    assert grant.allowed == Verdict(permissions, key, req.trust, autoSafe);
    forall k ensures Verdict(Upsert(permissions, grant), k, req.trust, autoSafe) == Verdict(start, k, req.trust, autoSafe) {
      UpsertNegotiated(permissions, key, k, req.trust, autoSafe, req.now);
      assert Verdict(permissions, k, req.trust, autoSafe) == Verdict(start, k, req.trust, autoSafe);
    }
  }

  lemma RejectTurn(start: seq<Grant>, req: Request, i: nat, autoSafe: bool)
    requires i < |req.requested|
    ensures Rejected(start, Tail(req, i), autoSafe)
         == (if Reported(start, req, autoSafe)[i].allowed then [] else [req.requested[i]])
          + Rejected(start, Tail(req, i + 1), autoSafe)
  {
    assert req.requested[i..][1..] == req.requested[i + 1..];
  }

  lemma LoopEnds(permissions: seq<Grant>, req: Request, autoSafe: bool)
    ensures Tail(req, 0) == req
    ensures NegotiateAll(permissions, Tail(req, |req.requested|), autoSafe) == permissions
    ensures Rejected(permissions, Tail(req, |req.requested|), autoSafe) == []
  {
  }

  // ---- The permission table in place ------------------------------------

  class PermissionTable {
    var permissions: seq<Grant>
    const autoSafe: bool

    constructor (autoSafe: bool)
      ensures permissions == [] && this.autoSafe == autoSafe
    {
      permissions := [];
      this.autoSafe := autoSafe;
    }

    method UpsertPermission(grant: Grant)
      modifies this
      ensures permissions == Upsert(old(permissions), grant)
    {
      var at := Find(permissions, grant.key);
      if at.Some? {
        permissions := permissions[at.value := grant];
      } else {
        permissions := permissions + [grant];
      }
    }

    method GrantPermission(key: Key, allowed: bool, now: Millis)
      modifies this
      ensures permissions == Upsert(old(permissions), Decided(old(permissions), key, allowed, now))
    {
      var at := Find(permissions, key);
      if at.Some? {
        var existing := permissions[at.value];
        permissions := permissions[at.value := existing.(allowed := allowed, persisted := true, decidedAt := now)];
      } else {
        permissions := permissions + [Grant(key, allowed, true, now, now)];
      }
    }

    /** One turn of the negotiation loop: the verdict on one requested capability. */
    method NegotiateOne(key: Key, trust: Trust, now: Millis) returns (grant: Grant)
      modifies this
      ensures grant == Negotiated(old(permissions), key, trust, autoSafe, now)
      ensures permissions == Upsert(old(permissions), grant)
    {
      var at := Find(permissions, key);
      var allowed := DefaultVerdict(trust, autoSafe, key);
      if at.Some? {
        allowed := permissions[at.value].allowed;
      }
      grant := Grant(key, allowed, allowed && IsSafe(key.capability), now, now);
      UpsertPermission(grant);
    }

    /** The reported verdicts are those of the records before the call, even when a
        capability is requested twice. */
    method NegotiateCapabilities(req: Request) returns (grants: seq<Grant>, rejected: seq<string>)
      modifies this
      ensures permissions == NegotiateAll(old(permissions), req, autoSafe)
      ensures grants == Reported(old(permissions), req, autoSafe)
      ensures rejected == Rejected(old(permissions), req, autoSafe)
    {
      hide NegotiateAll, Rejected, SameVerdicts, Negotiated, Upsert, Tail;
      grants, rejected := [], [];
      LoopEnds(permissions, req, autoSafe);
      SameVerdictsReflexive(permissions, req.trust, autoSafe);
      for i := 0 to |req.requested|
        invariant SameVerdicts(permissions, old(permissions), req.trust, autoSafe)
        invariant NegotiateAll(permissions, Tail(req, i), autoSafe) == NegotiateAll(old(permissions), req, autoSafe)
        invariant grants == Reported(old(permissions), req, autoSafe)[..i]
        invariant rejected + Rejected(old(permissions), Tail(req, i), autoSafe) == Rejected(old(permissions), req, autoSafe)
      {
        NegotiateTurn(permissions, old(permissions), req, i, autoSafe);
        RejectTurn(old(permissions), req, i, autoSafe);
        var capability := req.requested[i];
        var grant := NegotiateOne(Key(req.surfaceId, req.peerOwner, capability), req.trust, req.now);
        if !grant.allowed {
          rejected := rejected + [capability];
        }
        grants := grants + [grant];
      }
      LoopEnds(permissions, req, autoSafe);
      LoopEnds(old(permissions), req, autoSafe);
    }

    /** The permission part of opening a surface: it goes on only when nothing was
        rejected, and reports the missing capabilities otherwise. */
    method OpenSurface(req: Request) returns (r: Result<seq<Grant>, seq<string>>)
      modifies this
      ensures permissions == NegotiateAll(old(permissions), req, autoSafe)
      ensures r == (if Rejected(old(permissions), req, autoSafe) == [] then Ok(Reported(old(permissions), req, autoSafe))
                    else Err(Rejected(old(permissions), req, autoSafe)))
    {
      var grants, rejected := NegotiateCapabilities(req);
      if rejected != [] {
        return Err(rejected);
      }
      return Ok(grants);
    }
  }

  // ---- Runs -------------------------------------------------------------

  datatype Op = Decide(key: Key, allowed: bool, at: Millis) | Negotiate(req: Request)

  function Apply(permissions: seq<Grant>, op: Op, autoSafe: bool): seq<Grant> {
    match op
    case Decide(key, allowed, now) => Upsert(permissions, Decided(permissions, key, allowed, now))
    case Negotiate(req) => NegotiateAll(permissions, req, autoSafe)
  }

  function Run(permissions: seq<Grant>, ops: seq<Op>, autoSafe: bool): seq<Grant>
    decreases ops
  {
    if ops == [] then permissions else Run(Apply(permissions, ops[0], autoSafe), ops[1..], autoSafe)
  }

  lemma {:induction false} RunKeepsUnique(permissions: seq<Grant>, ops: seq<Op>, autoSafe: bool)
    requires UniqueKeys(permissions)
    ensures UniqueKeys(Run(permissions, ops, autoSafe))
    decreases ops
  {
    if ops != [] {
      match ops[0] {
        case Decide(key, allowed, now) => UpsertKeepsUnique(permissions, Decided(permissions, key, allowed, now));
        case Negotiate(req) => NegotiationKeepsUnique(permissions, req, autoSafe);
      }
      RunKeepsUnique(Apply(permissions, ops[0], autoSafe), ops[1..], autoSafe);
    }
  }

  /** What a run does to one key's decision, forgetting the table: a grant sets it, a
      first request settles it by the default of that moment, nothing else touches it. */
  function DecisionAfter(ops: seq<Op>, key: Key, decision: Option<bool>, autoSafe: bool): Option<bool> {
    if ops == [] then decision
    else
      var next := match ops[0]
                  case Decide(k, allowed, _) => if k == key then Some(allowed) else decision
                  case Negotiate(req) =>
                    if decision.None? && Concerns(req, key) then Some(DefaultVerdict(req.trust, autoSafe, key)) else decision;
      DecisionAfter(ops[1..], key, next, autoSafe)
  }

  /** The table refines one independent decision per key. */
  lemma {:induction false} RunDecides(permissions: seq<Grant>, ops: seq<Op>, autoSafe: bool, key: Key)
    ensures Recorded(Run(permissions, ops, autoSafe), key)
         == DecisionAfter(ops, key, Recorded(permissions, key), autoSafe)
    decreases ops
  {
    hide NegotiateAll, Upsert, Lookup;
    if ops != [] {
      match ops[0] {
        case Decide(k, allowed, now) => LookupOfUpsert(permissions, Decided(permissions, k, allowed, now), key);
        case Negotiate(req) => NegotiationRecords(permissions, req, autoSafe, key);
      }
      RunDecides(Apply(permissions, ops[0], autoSafe), ops[1..], autoSafe, key);
    }
  }

  predicate NeverDecided(ops: seq<Op>, key: Key) {
    forall k :: 0 <= k < |ops| && ops[k].Decide? ==> ops[k].key != key
  }

  lemma {:induction false} DecisionSticks(ops: seq<Op>, key: Key, decision: bool, autoSafe: bool)
    requires NeverDecided(ops, key)
    ensures DecisionAfter(ops, key, Some(decision), autoSafe) == Some(decision)
    decreases ops
  {
    if ops != [] {
      assert NeverDecided(ops[1..], key);
      DecisionSticks(ops[1..], key, decision, autoSafe);
    }
  }

  /** A recorded decision changes only through a grant for its own key. */
  lemma RecordedDecisionSticks(permissions: seq<Grant>, ops: seq<Op>, autoSafe: bool, key: Key)
    requires Recorded(permissions, key).Some? && NeverDecided(ops, key)
    ensures Recorded(Run(permissions, ops, autoSafe), key) == Recorded(permissions, key)
  {
    RunDecides(permissions, ops, autoSafe, key);
    DecisionSticks(ops, key, Recorded(permissions, key).value, autoSafe);
  }

  // ---- Renegotiation ----------------------------------------------------

  lemma {:induction false} SameVerdictsSameRejections(a: seq<Grant>, first: Request, b: seq<Grant>, second: Request, autoSafe: bool)
    requires first.surfaceId == second.surfaceId && first.peerOwner == second.peerOwner && first.requested == second.requested
    requires forall key :: Concerns(first, key) ==> Verdict(a, key, first.trust, autoSafe) == Verdict(b, key, second.trust, autoSafe)
    ensures Rejected(a, first, autoSafe) == Rejected(b, second, autoSafe)
    decreases |first.requested|
  {
    hide Verdict;
    if first.requested != [] {
      var rest, other := first.(requested := first.requested[1..]), second.(requested := second.requested[1..]);
      assert Concerns(first, Key(first.surfaceId, first.peerOwner, first.requested[0]));
      forall key | Concerns(rest, key) ensures Verdict(a, key, first.trust, autoSafe) == Verdict(b, key, second.trust, autoSafe) {
        assert Concerns(first, key);
      }
      SameVerdictsSameRejections(a, rest, b, other, autoSafe);
    }
  }

  /** Asking again gives the same verdicts and the same rejected list, however much
      happened in between and whatever the gateways' trust has become, as long as no
      grant was made for a requested capability. */
  lemma RenegotiationAgrees(permissions: seq<Grant>, req: Request, ops: seq<Op>, trust: Trust, now: Millis, autoSafe: bool)
    requires forall key :: Concerns(req, key) ==> NeverDecided(ops, key)
    ensures var later := Run(NegotiateAll(permissions, req, autoSafe), ops, autoSafe);
            var again := req.(trust := trust, now := now);
            && (forall key :: Concerns(req, key) ==> Verdict(later, key, trust, autoSafe) == Verdict(permissions, key, req.trust, autoSafe))
            && Rejected(later, again, autoSafe) == Rejected(permissions, req, autoSafe)
  {
    hide NegotiateAll, Run, Rejected;
    var after := NegotiateAll(permissions, req, autoSafe);
    var later := Run(after, ops, autoSafe);
    var again := req.(trust := trust, now := now);
    forall key | Concerns(req, key) ensures Verdict(later, key, trust, autoSafe) == Verdict(permissions, key, req.trust, autoSafe) {
      NegotiationRecords(permissions, req, autoSafe, key);
      RecordedDecisionSticks(after, ops, autoSafe, key);
    }
    SameVerdictsSameRejections(permissions, req, later, again, autoSafe);
  }

  // ---- Opening a surface ------------------------------------------------

  lemma {:induction false} RejectedIsTheDenied(permissions: seq<Grant>, req: Request, autoSafe: bool, capability: string)
    ensures var key := Key(req.surfaceId, req.peerOwner, capability);
            capability in Rejected(permissions, req, autoSafe) <==> Concerns(req, key) && !Verdict(permissions, key, req.trust, autoSafe)
    decreases |req.requested|
  {
    if req.requested != [] {
      RejectedIsTheDenied(permissions, req.(requested := req.requested[1..]), autoSafe, capability);
      assert req.requested == [req.requested[0]] + req.requested[1..];
    }
  }

  /** A surface opens exactly when the table it leaves allows every requested capability. */
  lemma OpensIffAllAllowed(permissions: seq<Grant>, req: Request, autoSafe: bool)
    ensures Rejected(permissions, req, autoSafe) == []
       <==> forall key :: Concerns(req, key) ==> Recorded(NegotiateAll(permissions, req, autoSafe), key) == Some(true)
  {
    hide Recorded, Verdict, NegotiateAll, Rejected;
    var rejected, after := Rejected(permissions, req, autoSafe), NegotiateAll(permissions, req, autoSafe);
    forall key | Concerns(req, key)
      ensures Recorded(after, key) == Some(true) <==> key.capability !in rejected
    {
      NegotiationRecords(permissions, req, autoSafe, key);
      RejectedIsTheDenied(permissions, req, autoSafe, key.capability);
      assert key == Key(req.surfaceId, req.peerOwner, key.capability);
    }
    if rejected != [] {
      var capability := rejected[0];
      RejectedIsTheDenied(permissions, req, autoSafe, capability);
      assert Concerns(req, Key(req.surfaceId, req.peerOwner, capability));
    }
  }
}
