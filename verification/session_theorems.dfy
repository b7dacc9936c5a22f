// The guarantees of the session protocol, for every run from fresh nodes: each node
// has a clock of its own, and peers that are none of the nodes publish what they like.

module SessionTheorems {
  import opened Prelude
  import opened Replay
  import opened Session
  import opened Network
  import opened Agreement

  ghost predicate Reachable(s: System) {
    exists peers, steps :: Possible(Initial(peers), steps) && Run(Initial(peers), steps) == s
  }

  lemma ReachableInv(s: System)
    requires Reachable(s)
    ensures Inv(s)
  {
    var peers, steps :| Possible(Initial(peers), steps) && Run(Initial(peers), steps) == s;
    InitialInv(peers);
    RunKeepsInv(Initial(peers), steps);
  }

  /** `x` never opened a negotiation with `y`. */
  predicate NeverOpens(p: seq<Wire>, x: Peer, y: Peer) {
    forall k :: 0 <= k < |p| ==> !Between(p[k], OfferKind, x, y)
  }

  lemma NoOfferSelected(p: seq<Wire>, x: Peer, y: Peer)
    requires NeverOpens(p, x, y)
    ensures Select(p, OfferKind, x, y) == []
  {
    var offers := Select(p, OfferKind, x, y);
    if offers != [] {
      SelectHas(p, offers[0], OfferKind, x, y);
    }
  }

  // ---- Outbound conservation --------------------------------------------

  /** In every run, crossing offers included: what `a` has published for a peer
      followed by what is still queued is exactly what was submitted, in order
      and exactly once, and nothing is queued while a session is active. */
  lemma OutboundConserved(s: System, a: Peer, peer: Peer)
    requires Reachable(s) && a in s.nodes
    ensures Emitted(s.published, a, peer) + QueueFor(s.nodes[a], peer) == Submitted(s.submitted, a, peer)
    ensures peer in s.nodes[a].queued ==> peer !in s.nodes[a].active
  {
    ReachableInv(s);
    assert Conserved(s.nodes[a], peer, s.published, s.submitted);
  }

  /** A queue always has its negotiation outstanding, and a node makes at most one
      offer to a peer in its lifetime. */
  lemma QueueAwaitsItsOnlyOffer(s: System, a: Peer, b: Peer)
    requires Reachable(s) && a in s.nodes && b in s.nodes && a != b
    ensures b in s.nodes[a].queued ==> b in s.nodes[a].pending
    ensures |Select(s.published, OfferKind, a, b)| <= 1 && |Select(s.published, AckKind, b, a)| <= 1
  {
    ReachableInv(s);
    OnePair(s, a, b);
  }

  // ---- Key agreement ----------------------------------------------------

  /** When only `a` opens negotiation with `b`, an active session at `a` is also
      active at `b`, with the same session id and key. */
  lemma KeyAgreement(s: System, a: Peer, b: Peer)
    requires Reachable(s) && a in s.nodes && b in s.nodes && a != b
    requires NeverOpens(s.published, b, a) && b in s.nodes[a].active
    ensures a in s.nodes[b].active && s.nodes[b].active[a] == s.nodes[a].active[b]
  {
    ReachableInv(s);
    OnePair(s, a, b);
    NoOfferSelected(s.published, b, a);
    assert OpenedBy(s.published, a, b, s.nodes[a].active[b]);
    assert OpenedBy(s.published, a, b, s.nodes[b].active[a]);
  }

  lemma OffersAt(p: seq<Wire>, nodes: set<Peer>, x: Peer, y: Peer)
    requires Numbered(p, nodes) && x in nodes && Select(p, OfferKind, x, y) != []
    ensures var m := Select(p, OfferKind, x, y)[0]; m.Offer? && m.sid < |p| && p[m.sid] == m && m.from == x
  {
    var m := Select(p, OfferKind, x, y)[0];
    SelectHas(p, m, OfferKind, x, y);
    var i :| 0 <= i < |p| && p[i] == m;
    assert UsesToken(p[i], i);
  }

  /** In every run, even with crossing offers, two nodes that hold the same session
      id for each other hold the same key. */
  lemma SameSidSameKey(s: System, a: Peer, b: Peer)
    requires Reachable(s) && a in s.nodes && b in s.nodes && a != b
    requires b in s.nodes[a].active && a in s.nodes[b].active
    requires s.nodes[a].active[b].sid == s.nodes[b].active[a].sid
    ensures s.nodes[a].active[b].key == s.nodes[b].active[a].key
  {
    ReachableInv(s);
    var p := s.published;
    OnePair(s, a, b);
    var sa, sb := s.nodes[a].active[b], s.nodes[b].active[a];
    if (OpenedBy(p, a, b, sa) && OpenedBy(p, b, a, sb)) || (OpenedBy(p, b, a, sa) && OpenedBy(p, a, b, sb)) {
      OffersAt(p, s.nodes.Keys, a, b);
      OffersAt(p, s.nodes.Keys, b, a);
      assert false;
    }
  }

  // ---- Sessions never change once agreed --------------------------------

  /** `t` continues `s`. */
  ghost predicate Continues(s: System, t: System) {
    && s.published <= t.published
    && s.nodes.Keys == t.nodes.Keys
    && forall a, b :: a in s.nodes && b in s.nodes[a].active ==> b in t.nodes[a].active
  }

  lemma ActContinues(s: System, at: Peer, e: Effect, now: Millis, subs: seq<Submission>)
    requires at in s.nodes && forall b :: b in s.nodes[at].active ==> b in e.node.active
    ensures Continues(s, Act(s, at, e, now, subs))
  {
  }

  lemma HandlersKeepSessions(n: Node, m: Wire, z: Peer, text: Text, verified: bool, now: Millis, tok: nat, b: Peer)
    requires b in n.active
    ensures b in DispatchOrQueue(n, z, text, now, tok).node.active && b in Receive(n, m, verified, now, tok).node.active
  {
  }

  lemma {:induction false} DispatchActsContinue(s: System, at: Peer, to: seq<Peer>, text: Text)
    requires at in s.nodes
    ensures Continues(s, DispatchActs(s, at, to, text))
  {
    hide DispatchOrQueue;
    if to != [] {
      var before, z := DispatchActs(s, at, to[..|to| - 1], text), to[|to| - 1];
      DispatchActsContinue(s, at, to[..|to| - 1], text);
      var n, now := before.nodes[at], ClockOf(before, at);
      forall b | b in n.active ensures b in DispatchOrQueue(n, z, text, now, |before.published|).node.active {
        HandlersKeepSessions(n, Offer(z, z, 0, PublicKey(0), 0, 0), z, text, false, now, |before.published|, b);
      }
      ActContinues(before, at, DispatchOrQueue(n, z, text, now, |before.published|), now, [Submission(at, z, text)]);
    }
  }

  lemma TakeContinues(s: System, step: Step)
    requires Enabled(s, step)
    ensures Continues(s, Take(s, step))
  {
    hide DispatchActs, DispatchOrQueue, Receive;
    match step
    case SendStep(at, to, text, now) =>
      SendStepIsActs(s, at, to, text, now);
      ActContinues(s, at, Effect(WithLocalHistory(s.nodes[at], text, now), []), now, []);
      DispatchActsContinue(LocalAct(s, at, text, now), at, to, text);
    case Deliver(at, m, now) =>
      var tok := |s.published|;
      forall b | b in s.nodes[at].active ensures b in Receive(s.nodes[at], m, m in s.published, now, tok).node.active {
        HandlersKeepSessions(s.nodes[at], m, at, Text(None, ""), m in s.published, now, tok, b);
      }
      ActContinues(s, at, Receive(s.nodes[at], m, m in s.published, now, tok), now, []);
    case Inject(m) =>
  }

  lemma {:induction false} RunContinues(s: System, steps: seq<Step>)
    requires Possible(s, steps)
    ensures Continues(s, Run(s, steps))
    decreases |steps|
  {
    if steps != [] {
      TakeContinues(s, steps[0]);
      RunContinues(Take(s, steps[0]), steps[1..]);
    }
  }

  lemma SelectOfPrefix(p: seq<Wire>, q: seq<Wire>, kind: MessageKind, from: Peer, to: Peer)
    requires p <= q
    ensures Select(p, kind, from, to) <= Select(q, kind, from, to)
  {
    SelectConcat(p, q[|p|..], kind, from, to);
    assert q == p + q[|p|..];
  }

  lemma OpenedByStays(p: seq<Wire>, q: seq<Wire>, i: Peer, r: Peer, ss: ActiveSession)
    requires p <= q && OpenedBy(p, i, r, ss)
    requires |Select(q, OfferKind, i, r)| <= 1 && |Select(q, AckKind, r, i)| <= 1
    ensures OpenedBy(q, i, r, ss)
  {
    SelectOfPrefix(p, q, OfferKind, i, r);
    SelectOfPrefix(p, q, AckKind, r, i);
  }

  /** When only `a` opens, the agreed session never changes again, at either end. */
  lemma AgreedSessionIsFinal(s: System, steps: seq<Step>, a: Peer, b: Peer)
    requires Inv(s) && Possible(s, steps) && a in s.nodes && b in s.nodes && a != b
    requires NeverOpens(Run(s, steps).published, b, a) && b in s.nodes[a].active
    ensures var t := Run(s, steps);
            && a in t.nodes && b in t.nodes
            && b in t.nodes[a].active && t.nodes[a].active[b] == s.nodes[a].active[b]
            && a in t.nodes[b].active && t.nodes[b].active[a] == s.nodes[a].active[b]
  {
    var t := Run(s, steps);
    RunContinues(s, steps);
    RunKeepsInv(s, steps);
    assert a in s.nodes.Keys && b in s.nodes.Keys;
    OnePair(s, a, b);
    OnePair(t, a, b);
    NoOfferSelected(t.published, b, a);
    SelectOfPrefix(s.published, t.published, OfferKind, b, a);
    OpenedByStays(s.published, t.published, a, b, s.nodes[a].active[b]);
    assert OpenedBy(t.published, a, b, t.nodes[a].active[b]);
    assert OpenedBy(t.published, a, b, t.nodes[b].active[a]);
  }

  // ---- End-to-end delivery ----------------------------------------------

  lemma EmittedAt(p: seq<Wire>, from: Peer, to: Peer, i: nat)
    requires i < |p| && Between(p[i], DataKind, from, to)
    ensures |Emitted(p[..i], from, to)| < |Emitted(p, from, to)|
    ensures Emitted(p, from, to)[|Emitted(p[..i], from, to)|] == p[i].payload.plain
  {
    EmittedSnoc(p[..i], p[i], from, to);
    EmittedConcat(p[..i] + [p[i]], p[i + 1..], from, to);
    assert p == p[..i] + [p[i]] + p[i + 1..];
  }

  /** Which of `a`'s submissions to `b` the inbox entry `k` of `b` came from. */
  function Origin(s: System, a: Peer, b: Peer, k: nat): nat
    requires b in s.nodes && k < |s.nodes[b].inbox|
  {
    var id := s.nodes[b].inbox[k].id;
    if id.FromNonce? && id.nonce <= |s.published| then |Emitted(s.published[..id.nonce], a, b)| else 0
  }

  lemma EntryIsGenuine(s: System, a: Peer, b: Peer, k: nat)
    requires Inv(s) && a in s.nodes && b in s.nodes && a != b
    requires k < |s.nodes[b].inbox| && s.nodes[b].inbox[k].from == a
    ensures FromNode(s.nodes[b], s.nodes.Keys, k) && Genuine(s.nodes[b], s.published, ClockOf(s, b), k)
  {
    hide Genuine, AllPairs, AllConserved, Numbered;
    assert Delivered(s.nodes[b], s.published, ClockOf(s, b), s.nodes.Keys);
    assert FromNode(s.nodes[b], s.nodes.Keys, k);
  }

  /** In every run, crossing offers included: each inbox entry from `a` is one of
      the messages `a` submitted to `b`, with the same room and body. */
  lemma NothingInvented(s: System, a: Peer, b: Peer, k: nat)
    requires Reachable(s) && a in s.nodes && b in s.nodes && a != b
    requires k < |s.nodes[b].inbox| && s.nodes[b].inbox[k].from == a
    ensures Origin(s, a, b, k) < |Submitted(s.submitted, a, b)|
    ensures Submitted(s.submitted, a, b)[Origin(s, a, b, k)] == s.nodes[b].inbox[k].text
  {
    ReachableInv(s);
    EntryIsGenuine(s, a, b, k);
    EmittedAt(s.published, a, b, s.nodes[b].inbox[k].id.nonce);
    OutboundConserved(s, a, b);
  }

  /** Distinct inbox entries come from distinct submissions: nothing is delivered twice. */
  lemma NothingDeliveredTwice(s: System, a: Peer, b: Peer, j: nat, k: nat)
    requires Reachable(s) && a in s.nodes && b in s.nodes && a != b
    requires j < k < |s.nodes[b].inbox| && s.nodes[b].inbox[j].from == a && s.nodes[b].inbox[k].from == a
    ensures Origin(s, a, b, j) != Origin(s, a, b, k)
  {
    ReachableInv(s);
    var p := s.published;
    EntryIsGenuine(s, a, b, j);
    EntryIsGenuine(s, a, b, k);
    assert Delivered(s.nodes[b], p, ClockOf(s, b), s.nodes.Keys);
    var x, y := s.nodes[b].inbox[j].id.nonce, s.nodes[b].inbox[k].id.nonce;
    assert x != y;
    if x < y {
      EmittedAt(p[..y], a, b, x);
      assert p[..y][..x] == p[..x];
    } else {
      EmittedAt(p[..x], a, b, y);
      assert p[..x][..y] == p[..y];
    }
  }
}
