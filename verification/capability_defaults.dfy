// What negotiation decides for a capability nobody has decided yet, in terms of the
// registry, the trust policies and the list of safe capabilities, and what it does to
// the flag that marks a decision as persisted (core/runtime/src/lib.rs).

module CapabilityDefaults {
  import opened Prelude
  import opened Capabilities

  // ---- Trusted gateways -------------------------------------------------

  /** The first gateway registered for the surface is entry `i`. */
  predicate FirstGateway(registry: seq<Registration>, surfaceId: string, i: nat) {
    && i < |registry| && registry[i].surfaceId == surfaceId && registry[i].gateway
    && forall j :: 0 <= j < i ==> !(registry[j].surfaceId == surfaceId && registry[j].gateway)
  }

  /** The first policy for the domain is entry `i`. */
  predicate FirstPolicy(policies: seq<Policy>, domain: string, i: nat) {
    && i < |policies| && policies[i].gatewayDomain == domain
    && forall j :: 0 <= j < i ==> policies[j].gatewayDomain != domain
  }

  predicate FullyTrusted(p: Policy) {
    p.state == StateTrusted && p.level == LevelTrusted
  }

  /** The surface is a gateway whose domain's first policy trusts it in state and level. */
  predicate TrustedGateway(trust: Trust, surfaceId: string) {
    exists i: nat, j: nat ::
      && i < |trust.registry| && j < |trust.policies| && FirstGateway(trust.registry, surfaceId, i)
      && FirstPolicy(trust.policies, trust.registry[i].domain, j) && FullyTrusted(trust.policies[j])
  }

  lemma {:induction false} GatewayFound(registry: seq<Registration>, surfaceId: string) returns (i: nat)
    requires GatewayDomain(registry, surfaceId).Some?
    ensures FirstGateway(registry, surfaceId, i) && registry[i].domain == GatewayDomain(registry, surfaceId).value
    decreases registry
  {
    if registry[0].surfaceId == surfaceId && registry[0].gateway {
      i := 0;
    } else {
      i := GatewayFound(registry[1..], surfaceId);
      i := i + 1;
    }
  }

  lemma {:induction false} FirstGatewayIs(registry: seq<Registration>, surfaceId: string, i: nat)
    requires FirstGateway(registry, surfaceId, i)
    ensures GatewayDomain(registry, surfaceId) == Some(registry[i].domain)
    decreases i
  {
    if i > 0 {
      assert !(registry[0].surfaceId == surfaceId && registry[0].gateway);
      FirstGatewayIs(registry[1..], surfaceId, i - 1);
    }
  }

  lemma {:induction false} PolicyFound(policies: seq<Policy>, domain: string) returns (i: nat)
    requires DomainTrusted(policies, domain)
    ensures FirstPolicy(policies, domain, i) && FullyTrusted(policies[i])
    decreases policies
  {
    if policies[0].gatewayDomain == domain {
      i := 0;
    } else {
      i := PolicyFound(policies[1..], domain);
      i := i + 1;
    }
  }

  lemma {:induction false} FirstPolicyDecides(policies: seq<Policy>, domain: string, i: nat)
    requires FirstPolicy(policies, domain, i)
    ensures DomainTrusted(policies, domain) <==> FullyTrusted(policies[i])
    decreases i
  {
    if i > 0 {
      assert policies[0].gatewayDomain != domain;
      FirstPolicyDecides(policies[1..], domain, i - 1);
    }
  }

  lemma TrustIsOfGateway(trust: Trust, key: Key)
    requires "gateway." <= key.capability
    ensures GatewayTrusts(trust, key) <==> TrustedGateway(trust, key.surfaceId)
  {
    if GatewayTrusts(trust, key) {
      var i := GatewayFound(trust.registry, key.surfaceId);
      var j := PolicyFound(trust.policies, trust.registry[i].domain);
    }
    if TrustedGateway(trust, key.surfaceId) {
      var i: nat, j: nat :|
        && i < |trust.registry| && j < |trust.policies| && FirstGateway(trust.registry, key.surfaceId, i)
        && FirstPolicy(trust.policies, trust.registry[i].domain, j) && FullyTrusted(trust.policies[j]);
      FirstGatewayIs(trust.registry, key.surfaceId, i);
      FirstPolicyDecides(trust.policies, trust.registry[i].domain, j);
    }
  }

  // ---- The default ------------------------------------------------------

  /** The capabilities the runtime lists as safe, and every service. */
  predicate ListedSafe(capability: string) {
    || capability in ["messaging", "encrypted-sessions", "chat/direct-e2ee", "dns/addressable", "routing/void-uri"]
    || capability in ["surface/messaging", "surface/room-access", "surface/notifications", "runtime/session-access"]
    || (|capability| >= 8 && capability[..8] == "service/")
  }

  lemma SafeIsListed(capability: string)
    ensures IsSafe(capability) <==> ListedSafe(capability)
  {
  }

  /** A requested capability nobody has decided is rejected unless a trusted gateway asks
      for a gateway capability, or safe capabilities are granted unasked and it is one. */
  lemma RejectedByDefaultIff(permissions: seq<Grant>, req: Request, autoSafe: bool, capability: string)
    requires capability in req.requested
    requires forall g :: g in permissions ==> g.key != Key(req.surfaceId, req.peerOwner, capability)
    ensures capability in Rejected(permissions, req, autoSafe) <==>
            && !("gateway." <= capability && TrustedGateway(req.trust, req.surfaceId))
            && !(autoSafe && ListedSafe(capability))
  {
    hide IsSafe, Rejected;
    var key := Key(req.surfaceId, req.peerOwner, capability);
    Unrecorded(permissions, key);
    RejectedIsTheDenied(permissions, req, autoSafe, capability);
    SafeIsListed(capability);
    if "gateway." <= capability {
      TrustIsOfGateway(req.trust, key);
    }
  }

  lemma Unrecorded(permissions: seq<Grant>, key: Key)
    requires forall g :: g in permissions ==> g.key != key
    ensures Recorded(permissions, key).None?
  {
  }

  /** No gateway whose domain lacks a fully trusted policy gets a gateway capability
      unasked, and one whose policies all trust it does. */
  lemma GatewayDefault(permissions: seq<Grant>, req: Request, autoSafe: bool, capability: string, i: nat)
    requires capability in req.requested && "gateway." <= capability
    requires forall g :: g in permissions ==> g.key != Key(req.surfaceId, req.peerOwner, capability)
    requires FirstGateway(req.trust.registry, req.surfaceId, i)
    ensures (forall p :: p in req.trust.policies && p.gatewayDomain == req.trust.registry[i].domain ==> !FullyTrusted(p))
            ==> capability in Rejected(permissions, req, autoSafe)
    ensures (exists p :: p in req.trust.policies && p.gatewayDomain == req.trust.registry[i].domain)
            && (forall p :: p in req.trust.policies && p.gatewayDomain == req.trust.registry[i].domain ==> FullyTrusted(p))
            ==> capability !in Rejected(permissions, req, autoSafe)
  {
    hide Rejected;
    var policies, domain := req.trust.policies, req.trust.registry[i].domain;
    RejectedByDefaultIff(permissions, req, autoSafe, capability);
    assert capability[0] == 'g' && !ListedSafe(capability);
    FirstGatewayIs(req.trust.registry, req.surfaceId, i);
    TrustIsOfGateway(req.trust, Key(req.surfaceId, req.peerOwner, capability));
    if DomainTrusted(policies, domain) {
      var j := PolicyFound(policies, domain);
      assert policies[j] in policies;
    } else if exists p :: p in policies && p.gatewayDomain == domain {
      var j := SomePolicy(policies, domain);
      FirstPolicyDecides(policies, domain, j);
      assert policies[j] in policies;
    }
  }

  lemma {:induction false} SomePolicy(policies: seq<Policy>, domain: string) returns (j: nat)
    requires exists p :: p in policies && p.gatewayDomain == domain
    ensures FirstPolicy(policies, domain, j)
    decreases policies
  {
    if policies[0].gatewayDomain == domain {
      j := 0;
    } else {
      var p :| p in policies && p.gatewayDomain == domain;
      assert p in policies[1..];
      j := SomePolicy(policies[1..], domain);
      j := j + 1;
    }
  }

  // ---- What is persisted ------------------------------------------------

  /** A grant is persisted and dated, and keeps the time of the first request; negotiating
      afterwards, whatever the trust, keeps the decision, but persists it only when it is
      positive and the capability is safe. */
  lemma GrantThenNegotiation(permissions: seq<Grant>, key: Key, allowed: bool, at: Millis, req: Request, autoSafe: bool)
    requires Concerns(req, key)
    ensures var granted := Lookup(Apply(permissions, Op.Decide(key, allowed, at), autoSafe), key);
            && granted.Some? && granted.value.allowed == allowed && granted.value.persisted && granted.value.decidedAt == at
            && granted.value.requestedAt
            == (if Lookup(permissions, key).Some? then Lookup(permissions, key).value.requestedAt else at)
    ensures var after := Lookup(Run(permissions, [Op.Decide(key, allowed, at), Op.Negotiate(req)], autoSafe), key);
            after == Some(Grant(key, allowed, allowed && ListedSafe(key.capability), req.now, req.now))
  {
    hide IsSafe, NegotiateAll, Lookup;
    var granted := Apply(permissions, Op.Decide(key, allowed, at), autoSafe);
    LookupOfUpsert(permissions, Decided(permissions, key, allowed, at), key);
    NegotiationRewrites(granted, req, autoSafe, key);
    SafeIsListed(key.capability);
    var ops := [Op.Decide(key, allowed, at), Op.Negotiate(req)];
    assert ops[1..] == [Op.Negotiate(req)] && ops[1..][1..] == [];
    assert Run(permissions, ops, autoSafe) == Run(granted, ops[1..], autoSafe) == Run(NegotiateAll(granted, req, autoSafe), ops[1..][1..], autoSafe);
  }

  /** After any negotiation a requested capability's record carries the verdict, the time
      of the negotiation, and the persisted mark exactly when it is allowed and safe. */
  lemma NegotiatedRecord(permissions: seq<Grant>, req: Request, autoSafe: bool, key: Key)
    requires Concerns(req, key)
    ensures Lookup(NegotiateAll(permissions, req, autoSafe), key)
         == Some(Grant(key, key.capability !in Rejected(permissions, req, autoSafe),
                       key.capability !in Rejected(permissions, req, autoSafe) && ListedSafe(key.capability), req.now, req.now))
  {
    hide IsSafe, NegotiateAll, Lookup, Rejected;
    NegotiationRewrites(permissions, req, autoSafe, key);
    RejectedIsTheDenied(permissions, req, autoSafe, key.capability);
    SafeIsListed(key.capability);
  }
}
