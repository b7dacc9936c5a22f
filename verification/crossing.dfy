// Two further results about session negotiation: envelopes from the initiator
// always open, and crossing offers are exactly what breaks key agreement.

module Crossing {
  import opened Prelude
  import opened Replay
  import opened Session
  import opened Network
  import opened Agreement
  import opened SessionTheorems

  // ---- Envelopes are sealed under opened sessions -----------------------

  /** Every envelope from `a` to `b` is sealed under the session they opened. */
  predicate Sealing(p: seq<Wire>, a: Peer, b: Peer) {
    forall k :: 0 <= k < |p| && Between(p[k], DataKind, a, b) ==> Opened(p, a, b, ActiveSession(p[k].sid, p[k].payload.key))
  }

  ghost predicate AllSealed(s: System) {
    forall a, b :: a in s.nodes && b in s.nodes && a != b ==> Sealing(s.published, a, b)
  }

  /** Envelopes in `out` are sealed under the sessions the node now holds. */
  predicate SealedUnder(out: seq<Wire>, n: Node) {
    forall k :: 0 <= k < |out| && out[k].Data? ==>
      out[k].to in n.active && n.active[out[k].to] == ActiveSession(out[k].sid, out[k].payload.key)
  }

  lemma {:induction false} EnvelopesSealed(me: Peer, peer: Peer, ss: ActiveSession, texts: seq<Text>, now: Millis, tok: nat, n: Node)
    requires peer in n.active && n.active[peer] == ss
    ensures SealedUnder(Envelopes(me, peer, ss, texts, now, tok), n)
  {
    if texts != [] {
      EnvelopesSealed(me, peer, ss, texts[..|texts| - 1], now, tok, n);
    }
  }

  lemma ReceiveSealed(n: Node, m: Wire, verified: bool, now: Millis, tok: nat)
    ensures SealedUnder(Receive(n, m, verified, now, tok).out, Receive(n, m, verified, now, tok).node)
  {
    var e := Receive(n, m, verified, now, tok);
    if m.from in e.node.active {
      EnvelopesSealed(n.me, m.from, e.node.active[m.from], QueueFor(n, m.from), now, tok, e.node);
      EnvelopesSealed(n.me, m.from, e.node.active[m.from], QueueFor(n, m.from), now, tok + 1, e.node);
    }
  }

  lemma OpenedStays(s: System, t: System, a: Peer, b: Peer, ss: ActiveSession)
    requires s.published <= t.published && Inv(t) && a in t.nodes && b in t.nodes && a != b
    requires Opened(s.published, a, b, ss)
    ensures Opened(t.published, a, b, ss)
  {
    OnePair(t, a, b);
    if OpenedBy(s.published, a, b, ss) {
      OpenedByStays(s.published, t.published, a, b, ss);
    } else {
      OpenedByStays(s.published, t.published, b, a, ss);
    }
  }

  /** Sealing survives any step that keeps the invariant and seals what it adds. */
  lemma GrowthKeepsSealed(s: System, t: System, out: seq<Wire>)
    requires AllSealed(s) && Inv(t) && t.nodes.Keys == s.nodes.Keys && t.published == s.published + out
    requires forall k :: 0 <= k < |out| && out[k].Data? && out[k].from in t.nodes && out[k].to in t.nodes ==>
               SealedUnder([out[k]], t.nodes[out[k].from])
    ensures AllSealed(t)
  {
    hide Opened, Inv;
    forall a, b, k | a in t.nodes && b in t.nodes && a != b && 0 <= k < |t.published| && Between(t.published[k], DataKind, a, b)
      ensures Opened(t.published, a, b, ActiveSession(t.published[k].sid, t.published[k].payload.key))
    {
      var m := t.published[k];
      if k < |s.published| {
        assert a in s.nodes.Keys && b in s.nodes.Keys && Sealing(s.published, a, b);
        OpenedStays(s, t, a, b, ActiveSession(m.sid, m.payload.key));
      } else {
        assert m == out[k - |s.published|];
        assert [m][0] == m;
        HeldIsOpened(t, a, b);
      }
    }
  }

  lemma HeldIsOpened(t: System, a: Peer, b: Peer)
    requires Inv(t) && a in t.nodes && b in t.nodes && a != b && b in t.nodes[a].active
    ensures Opened(t.published, a, b, t.nodes[a].active[b])
  {
    OnePair(t, a, b);
  }

  lemma ActKeepsSealed(s: System, at: Peer, e: Effect, z: Peer, now: Millis, subs: seq<Submission>)
    requires at in s.nodes && AllSealed(s) && Inv(Act(s, at, e, now, subs))
    requires Directed(e.out, at, z) && SealedUnder(e.out, e.node)
    ensures AllSealed(Act(s, at, e, now, subs))
  {
    hide Inv, AllSealed;
    GrowthKeepsSealed(s, Act(s, at, e, now, subs), e.out);
  }

  lemma DispatchSealed(n: Node, z: Peer, text: Text, now: Millis, tok: nat)
    ensures var e := DispatchOrQueue(n, z, text, now, tok); Directed(e.out, n.me, z) && SealedUnder(e.out, e.node)
  {
  }

  lemma DispatchKeepsSealed(s: System, at: Peer, z: Peer, text: Text)
    requires Inv(s) && AllSealed(s) && at in s.nodes
    ensures AllSealed(DispatchAct(s, at, z, text))
  {
    hide AllPairs, AllConserved, AllDelivered, AllSealed, DispatchOrQueue;
    var now := ClockOf(s, at);
    DispatchKeepsInv(s, at, z, text);
    DispatchSealed(s.nodes[at], z, text, now, |s.published|);
    ActKeepsSealed(s, at, DispatchOrQueue(s.nodes[at], z, text, now, |s.published|), z, now, [Submission(at, z, text)]);
  }

  lemma {:induction false} DispatchesKeepSealed(s: System, at: Peer, to: seq<Peer>, text: Text)
    requires Inv(s) && AllSealed(s) && at in s.nodes
    ensures AllSealed(DispatchActs(s, at, to, text))
  {
    hide Inv, AllSealed, DispatchAct;
    if to != [] {
      DispatchesKeepSealed(s, at, to[..|to| - 1], text);
      DispatchesKeepInv(s, at, to[..|to| - 1], text);
      DispatchKeepsSealed(DispatchActs(s, at, to[..|to| - 1], text), at, to[|to| - 1], text);
    }
  }

  lemma ReceiveKeepsSealed(s: System, at: Peer, m: Wire)
    requires Inv(s) && AllSealed(s) && at in s.nodes
    ensures AllSealed(ReceiveAct(s, at, m))
  {
    hide AllPairs, AllConserved, AllDelivered, AllSealed, Receive;
    var n, now, tok := s.nodes[at], ClockOf(s, at), |s.published|;
    ReceiveKeepsInv(s, at, m);
    ReceiveDirected(n, m, m in s.published, now, tok);
    ReceiveSealed(n, m, m in s.published, now, tok);
    ActKeepsSealed(s, at, Receive(n, m, m in s.published, now, tok), m.from, now, []);
  }

  lemma LocalKeepsSealed(s: System, at: Peer, text: Text, now: Millis)
    requires AllSealed(s) && at in s.nodes
    ensures AllSealed(LocalAct(s, at, text, now)) && AllSealed(Later(s, at, now))
  {
    hide Sealing;
    assert s.published + [] == s.published;
  }

  lemma TakeKeepsSealed(s: System, step: Step)
    requires Inv(s) && AllSealed(s) && Enabled(s, step)
    ensures AllSealed(Take(s, step))
  {
    hide Inv, AllSealed, DispatchActs, LocalAct, ReceiveAct;
    if step.Inject? {
      InjectKeepsInv(s, step.foreign);
      GrowthKeepsSealed(s, Take(s, step), [step.foreign]);
    } else {
      hide Take;
      StepReadsClock(s, step);
      LaterKeepsInv(s, step.at, step.now);
      var t := Later(s, step.at, step.now);
      LocalKeepsSealed(s, step.at, Text(None, ""), step.now);
      match step
      case SendStep(at, to, text, now) =>
        LocalKeepsInv(t, at, text);
        LocalKeepsSealed(t, at, text, now);
        DispatchesKeepSealed(LocalAct(t, at, text, now), at, to, text);
      case Deliver(at, m, _) =>
        ReceiveKeepsSealed(t, at, m);
      case _ =>
    }
  }

  lemma {:induction false} RunKeepsSealed(s: System, steps: seq<Step>)
    requires Inv(s) && AllSealed(s) && Possible(s, steps)
    ensures AllSealed(Run(s, steps))
    decreases |steps|
  {
    hide Inv, AllSealed, Take;
    if steps != [] {
      TakeKeepsSealed(s, steps[0]);
      TakeKeepsInv(s, steps[0]);
      RunKeepsSealed(Take(s, steps[0]), steps[1..]);
    }
  }

  lemma ReachableSealed(s: System)
    requires Reachable(s)
    ensures Inv(s) && AllSealed(s)
  {
    var peers, steps :| Possible(Initial(peers), steps) && Run(Initial(peers), steps) == s;
    InitialInv(peers);
    RunKeepsInv(Initial(peers), steps);
    RunKeepsSealed(Initial(peers), steps);
  }

  /** When only `a` opens, `b` holds the session every envelope from `a` is sealed under. */
  lemma EnvelopeFitsSession(s: System, a: Peer, b: Peer, m: Wire)
    requires Reachable(s) && a in s.nodes && b in s.nodes && a != b
    requires NeverOpens(s.published, b, a) && m in s.published && Between(m, DataKind, a, b)
    ensures s.nodes[a].me == a && s.nodes[b].me == b
    ensures a in s.nodes[b].active && s.nodes[b].active[a] == ActiveSession(m.sid, m.payload.key)
  {
    ReachableSealed(s);
    var p := s.published;
    assert Sealing(p, a, b);
    OnePair(s, a, b);
    NoOfferSelected(p, b, a);
    assert OpenedBy(p, a, b, ActiveSession(m.sid, m.payload.key));
    assert OpenedBy(p, a, b, s.nodes[b].active[a]);
  }

  /** When only `a` opens, every envelope `a` ever published for `b` is taken into
      `b`'s inbox, unaltered, whenever it arrives inside the replay window for the
      first time: it is never refused for its session or its key. */
  lemma InitiatorEnvelopeAccepted(s: System, a: Peer, b: Peer, m: Wire, now: Millis)
    requires Reachable(s) && a in s.nodes && b in s.nodes && a != b
    requires NeverOpens(s.published, b, a) && ClockOf(s, b) <= now
    requires m in s.published && Between(m, DataKind, a, b) && PassesReplay(s.nodes[b], m, now)
    ensures Take(s, Deliver(b, m, now)).nodes[b].inbox
            == s.nodes[b].inbox + [InboxEntry(FromNonce(m.nonce), a, m.payload.plain, true)]
  {
    EnvelopeFitsSession(s, a, b, m);
  }

  // ---- Crossing offers --------------------------------------------------

  /** Of the nodes, only those the policy lists ever open a negotiation, and only with
      the peers it lists; other peers are not bound by it. */
  predicate OpensWithin(p: seq<Wire>, nodes: set<Peer>, policy: set<(Peer, Peer)>) {
    forall k :: 0 <= k < |p| && p[k].Offer? && p[k].from in nodes ==> (p[k].from, p[k].to) in policy
  }

  predicate Agree(s: System, a: Peer, b: Peer)
    requires a in s.nodes && b in s.nodes
  {
    b in s.nodes[a].active && a in s.nodes[b].active ==> s.nodes[a].active[b] == s.nodes[b].active[a]
  }

  /** Every run that keeps to the policy ends with `a` and `b` in agreement. */
  ghost predicate AlwaysAgree(peers: set<Peer>, policy: set<(Peer, Peer)>, a: Peer, b: Peer) {
    forall steps :: Possible(Initial(peers), steps) && OpensWithin(Run(Initial(peers), steps).published, peers, policy) ==>
      var s := Run(Initial(peers), steps);
      a in s.nodes && b in s.nodes && Agree(s, a, b)
  }

  const HELLO: Text := Text(None, "hello")

  function Waiting(me: Peer, peer: Peer, tok: nat): Node {
    Node(me, map[peer := PendingSession(tok, tok)], map[], map[peer := [HELLO]], map[],
         [InboxEntry(LocalStamp(0), me, HELLO, false)])
  }

  lemma FirstSend(me: Peer, peer: Peer, tok: nat)
    ensures Send(Node(me, map[], map[], map[], map[], []), [peer], HELLO, 0, tok)
         == Effect(Waiting(me, peer, tok), [Offer(me, peer, tok, PublicKey(tok), 0, tok)])
  {
    var n := WithLocalHistory(Node(me, map[], map[], map[], map[], []), HELLO, 0);
    assert [peer][..0] == [];
    assert DispatchAll(n, [], HELLO, 0, tok) == Effect(n, []);
    assert QueueFor(n, peer) + [HELLO] == [HELLO];
    assert DispatchOrQueue(n, peer, HELLO, 0, tok).node == Waiting(me, peer, tok);
  }

  /** A node that waits for an ack and receives the peer's crossing offer. */
  lemma CrossingOffer(me: Peer, peer: Peer, mine: nat, theirs: nat, tok: nat)
    ensures var m := Offer(peer, me, theirs, PublicKey(theirs), 0, theirs);
            var e := Receive(Waiting(me, peer, mine), m, true, 0, tok);
            && e.node.me == me
            && e.node.pending == map[peer := PendingSession(mine, mine)]
            && e.node.seen == map[ReplayKeyOf(m) := 0]
            && peer in e.node.active && e.node.active[peer].sid == theirs
            && |e.out| >= 1 && e.out[0] == Ack(me, peer, theirs, PublicKey(tok), 0, tok)
  {
    var m := Offer(peer, me, theirs, PublicKey(theirs), 0, theirs);
    var n := Waiting(me, peer, mine);
    assert Prune(n.seen, Lower(0, REPLAY_WINDOW_MS)) == map[];
    assert PassesReplay(n, m, 0);
  }

  /** The late ack replaces the session the crossing offer installed. */
  lemma LateAck(n: Node, m: Wire, tok: nat)
    requires m.Ack? && m.to == n.me && m.ts == 0 && ReplayKeyOf(m) !in n.seen
    requires m.from in n.pending && n.pending[m.from].sid == m.sid
    ensures var e := Receive(n, m, true, 0, tok); m.from in e.node.active && e.node.active[m.from].sid == m.sid
  {
    assert PassesReplay(n, m, 0);
  }

  lemma ReceiveNeverOffers(n: Node, m: Wire, verified: bool, now: Millis, tok: nat)
    ensures forall w :: w in Receive(n, m, verified, now, tok).out ==> !w.Offer?
  {
    var e := Receive(n, m, verified, now, tok);
    if m.from in e.node.active {
      EnvelopesNoOffers(n.me, m.from, e.node.active[m.from], QueueFor(n, m.from), now, tok);
      EnvelopesNoOffers(n.me, m.from, e.node.active[m.from], QueueFor(n, m.from), now, tok + 1);
    }
  }

  lemma {:induction false} EnvelopesNoOffers(me: Peer, peer: Peer, ss: ActiveSession, texts: seq<Text>, now: Millis, tok: nat)
    ensures forall w :: w in Envelopes(me, peer, ss, texts, now, tok) ==> !w.Offer?
  {
    if texts != [] {
      EnvelopesNoOffers(me, peer, ss, texts[..|texts| - 1], now, tok);
    }
  }

  /** No clock has moved yet. */
  ghost predicate AtZero(s: System) {
    forall a :: ClockOf(s, a) == 0
  }

  lemma DeliverKeepsOffers(s: System, at: Peer, m: Wire, nodes: set<Peer>, policy: set<(Peer, Peer)>)
    requires at in s.nodes && AtZero(s) && OpensWithin(s.published, nodes, policy)
    ensures var t := Take(s, Deliver(at, m, 0));
            && OpensWithin(t.published, nodes, policy) && AtZero(t)
            && s.published <= t.published && forall w :: w in s.published ==> w in t.published
  {
    hide Receive;
    ReceiveNeverOffers(s.nodes[at], m, m in s.published, 0, |s.published|);
    var out := Receive(s.nodes[at], m, m in s.published, 0, |s.published|).out;
    var t := Take(s, Deliver(at, m, 0));
    assert forall k :: 0 <= k < |out| ==> out[k] in out;
    forall k | 0 <= k < |t.published|
      ensures t.published[k].Offer? && t.published[k].from in nodes ==> (t.published[k].from, t.published[k].to) in policy
    {
      if k >= |s.published| {
        assert t.published[k] == out[k - |s.published|];
      }
    }
    forall a ensures ClockOf(t, a) == 0 {
      assert ClockOf(s, a) == 0;
    }
  }

  lemma Prepend(s: System, step: Step, rest: seq<Step>)
    requires Enabled(s, step) && Possible(Take(s, step), rest)
    ensures Possible(s, [step] + rest) && Run(s, [step] + rest) == Run(Take(s, step), rest)
  {
    assert ([step] + rest)[1..] == rest;
  }

  /** Both nodes have sent their offers and neither offer has arrived. */
  ghost predicate BothWaiting(s: System, a: Peer, b: Peer) {
    && a in s.nodes && b in s.nodes && AtZero(s)
    && s.nodes[a] == Waiting(a, b, 0) && s.nodes[b] == Waiting(b, a, 1)
    && s.published == [Offer(a, b, 0, PublicKey(0), 0, 0), Offer(b, a, 1, PublicKey(1), 0, 1)]
  }

  lemma BothOffer(peers: set<Peer>, a: Peer, b: Peer) returns (s1: System, s2: System)
    requires a in peers && b in peers && a != b
    ensures var first, second := SendStep(a, [b], HELLO, 0), SendStep(b, [a], HELLO, 0);
            && Enabled(Initial(peers), first) && s1 == Take(Initial(peers), first)
            && Enabled(s1, second) && s2 == Take(s1, second)
            && BothWaiting(s2, a, b)
  {
    FirstSend(a, b, 0);
    FirstSend(b, a, 1);
    hide Send;
    s1 := Take(Initial(peers), SendStep(a, [b], HELLO, 0));
    assert s1.published == [Offer(a, b, 0, PublicKey(0), 0, 0)];
    assert s1.nodes[a] == Waiting(a, b, 0) && s1.nodes[b] == Node(b, map[], map[], map[], map[], []);
    s2 := Take(s1, SendStep(b, [a], HELLO, 0));
    assert s2.nodes[b] == Waiting(b, a, 1) && s2.nodes[a] == s1.nodes[a];
    assert AtZero(s2);
  }

  /** Both crossing offers have been accepted; both acks are still on their way. */
  ghost predicate BothAccepted(s: System, a: Peer, b: Peer, ackA: Wire, ackB: Wire) {
    && a in s.nodes && b in s.nodes && AtZero(s) && s.nodes[a].me == a && s.nodes[b].me == b
    && s.nodes[a].pending == map[b := PendingSession(0, 0)] && s.nodes[b].pending == map[a := PendingSession(1, 1)]
    && ackA in s.published && ackB in s.published
    && ackA.Ack? && ackA.from == a && ackA.to == b && ackA.sid == 1 && ackA.ts == 0
    && ackB.Ack? && ackB.from == b && ackB.to == a && ackB.sid == 0 && ackB.ts == 0
    && ReplayKeyOf(ackB) !in s.nodes[a].seen && ReplayKeyOf(ackA) !in s.nodes[b].seen
  }

  lemma BothAccept(s: System, a: Peer, b: Peer, nodes: set<Peer>, policy: set<(Peer, Peer)>)
    returns (t: System, u: System, ackA: Wire, ackB: Wire)
    requires BothWaiting(s, a, b) && a != b && (a, b) in policy && (b, a) in policy
    ensures var first, second := Deliver(a, s.published[1], 0), Deliver(b, s.published[0], 0);
            && Enabled(s, first) && t == Take(s, first) && Enabled(t, second) && u == Take(t, second)
            && BothAccepted(u, a, b, ackA, ackB) && OpensWithin(u.published, nodes, policy)
  {
    var offerA, offerB := s.published[0], s.published[1];
    CrossingOffer(a, b, 0, 1, |s.published|);
    DeliverKeepsOffers(s, a, offerB, nodes, policy);
    t := Take(s, Deliver(a, offerB, 0));
    var ea := Receive(s.nodes[a], offerB, true, 0, |s.published|);
    ackA := ea.out[0];
    assert ackA in ea.out && ackA in t.published;
    CrossingOffer(b, a, 1, 0, |t.published|);
    DeliverKeepsOffers(t, b, offerA, nodes, policy);
    u := Take(t, Deliver(b, offerA, 0));
    var eb := Receive(t.nodes[b], offerA, true, 0, |t.published|);
    ackB := eb.out[0];
    assert ackB in eb.out && ackB in u.published;
  }

  lemma BothComplete(s: System, a: Peer, b: Peer, ackA: Wire, ackB: Wire, nodes: set<Peer>, policy: set<(Peer, Peer)>)
    returns (t: System, u: System)
    requires BothAccepted(s, a, b, ackA, ackB) && a != b && OpensWithin(s.published, nodes, policy)
    ensures var first, second := Deliver(a, ackB, 0), Deliver(b, ackA, 0);
            && Enabled(s, first) && t == Take(s, first) && Enabled(t, second) && u == Take(t, second)
            && OpensWithin(u.published, nodes, policy) && a in u.nodes && b in u.nodes && !Agree(u, a, b)
  {
    LateAck(s.nodes[a], ackB, |s.published|);
    DeliverKeepsOffers(s, a, ackB, nodes, policy);
    t := Take(s, Deliver(a, ackB, 0));
    LateAck(t.nodes[b], ackA, |t.published|);
    DeliverKeepsOffers(t, b, ackA, nodes, policy);
    u := Take(t, Deliver(b, ackA, 0));
  }

  /** If both may open, some run leaves them with different sessions. */
  lemma CrossingDisagrees(peers: set<Peer>, policy: set<(Peer, Peer)>, a: Peer, b: Peer) returns (steps: seq<Step>)
    requires a in peers && b in peers && a != b && (a, b) in policy && (b, a) in policy
    ensures Possible(Initial(peers), steps)
    ensures var s := Run(Initial(peers), steps);
            OpensWithin(s.published, peers, policy) && a in s.nodes && b in s.nodes && !Agree(s, a, b)
  {
    var s1, s2 := BothOffer(peers, a, b);
    var s3, s4, ackA, ackB := BothAccept(s2, a, b, peers, policy);
    var s5, s6 := BothComplete(s4, a, b, ackA, ackB, peers, policy);
    assert Possible(s6, []) && Run(s6, []) == s6;
    steps := [];
    Prepend(s5, Deliver(b, ackA, 0), steps);
    steps := [Deliver(b, ackA, 0)] + steps;
    Prepend(s4, Deliver(a, ackB, 0), steps);
    steps := [Deliver(a, ackB, 0)] + steps;
    Prepend(s3, Deliver(b, s2.published[0], 0), steps);
    steps := [Deliver(b, s2.published[0], 0)] + steps;
    Prepend(s2, Deliver(a, s2.published[1], 0), steps);
    steps := [Deliver(a, s2.published[1], 0)] + steps;
    Prepend(s1, SendStep(b, [a], HELLO, 0), steps);
    steps := [SendStep(b, [a], HELLO, 0)] + steps;
    Prepend(Initial(peers), SendStep(a, [b], HELLO, 0), steps);
    steps := [SendStep(a, [b], HELLO, 0)] + steps;
  }

  lemma PolicyForbids(p: seq<Wire>, nodes: set<Peer>, policy: set<(Peer, Peer)>, x: Peer, y: Peer)
    requires OpensWithin(p, nodes, policy) && x in nodes && (x, y) !in policy
    ensures NeverOpens(p, x, y)
  {
    forall k | 0 <= k < |p| ensures !Between(p[k], OfferKind, x, y) {
      assert p[k].Offer? && p[k].from in nodes ==> (p[k].from, p[k].to) in policy;
    }
  }

  lemma {:induction false} NodesFixed(s: System, steps: seq<Step>)
    requires Possible(s, steps)
    ensures Run(s, steps).nodes.Keys == s.nodes.Keys
  {
    RunContinues(s, steps);
  }

  /** Key agreement holds on every run exactly when at most one side may open. */
  lemma AgreementIffOneSideOpens(peers: set<Peer>, policy: set<(Peer, Peer)>, a: Peer, b: Peer)
    requires a in peers && b in peers && a != b
    ensures AlwaysAgree(peers, policy, a, b) <==> !((a, b) in policy && (b, a) in policy)
  {
    if (a, b) in policy && (b, a) in policy {
      var steps := CrossingDisagrees(peers, policy, a, b);
    } else {
      forall steps | Possible(Initial(peers), steps) && OpensWithin(Run(Initial(peers), steps).published, peers, policy)
        ensures var s := Run(Initial(peers), steps); a in s.nodes && b in s.nodes && Agree(s, a, b)
      {
        var s := Run(Initial(peers), steps);
        NodesFixed(Initial(peers), steps);
        assert a in s.nodes.Keys && b in s.nodes.Keys;
        assert Reachable(s);
        if b in s.nodes[a].active && a in s.nodes[b].active {
          if (b, a) !in policy {
            PolicyForbids(s.published, peers, policy, b, a);
            KeyAgreement(s, a, b);
          } else {
            PolicyForbids(s.published, peers, policy, a, b);
            KeyAgreement(s, b, a);
          }
        }
      }
    }
  }
}
