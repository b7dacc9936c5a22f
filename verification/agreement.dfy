// What every run of the session protocol keeps: key agreement, end-to-end
// delivery and outbound conservation (core/transport/src/node.rs).

module Agreement {
  import opened Prelude
  import opened Replay
  import opened Session
  import opened Network

  // ---- Steps as acts ----------------------------------------------------

  /** One handler's effect at clock reading `now`, applied to the system. */
  function Act(s: System, at: Peer, e: Effect, now: Millis, subs: seq<Submission>): System {
    System(s.nodes[at := e.node], s.clocks[at := now], s.published + e.out, s.submitted + subs)
  }

  function DispatchAct(s: System, at: Peer, to: Peer, text: Text): System
    requires at in s.nodes
  {
    var now := ClockOf(s, at);
    Act(s, at, DispatchOrQueue(s.nodes[at], to, text, now, |s.published|), now, [Submission(at, to, text)])
  }

  function DispatchActs(s: System, at: Peer, to: seq<Peer>, text: Text): (r: System)
    requires at in s.nodes
    ensures at in r.nodes && ClockOf(r, at) == ClockOf(s, at) && r.nodes.Keys == s.nodes.Keys
  {
    if to == [] then s else DispatchAct(DispatchActs(s, at, to[..|to| - 1], text), at, to[|to| - 1], text)
  }

  function LocalAct(s: System, at: Peer, text: Text, now: Millis): System
    requires at in s.nodes
  {
    Act(s, at, Effect(WithLocalHistory(s.nodes[at], text, now), []), now, [])
  }

  lemma ActTwice(s: System, at: Peer, e: Effect, subs: seq<Submission>, f: Effect, more: seq<Submission>, now: Millis)
    ensures Act(Act(s, at, e, now, subs), at, f, now, more) == Act(s, at, Effect(f.node, e.out + f.out), now, subs + more)
  {
    assert s.published + e.out + f.out == s.published + (e.out + f.out);
    assert s.submitted + subs + more == s.submitted + (subs + more);
    assert s.nodes[at := e.node][at := f.node] == s.nodes[at := f.node];
    assert s.clocks[at := now][at := now] == s.clocks[at := now];
  }

  lemma ActNothing(s: System, at: Peer)
    requires at in s.nodes && at in s.clocks
    ensures Act(s, at, Effect(s.nodes[at], []), ClockOf(s, at), []) == s
  {
    assert s.published + [] == s.published && s.submitted + [] == s.submitted;
    assert s.nodes[at := s.nodes[at]] == s.nodes && s.clocks[at := s.clocks[at]] == s.clocks;
  }

  lemma {:induction false} DispatchActsMeaning(s: System, at: Peer, to: seq<Peer>, text: Text)
    requires at in s.nodes && at in s.clocks
    ensures var now := ClockOf(s, at);
            var e := DispatchAll(s.nodes[at], to, text, now, |s.published|);
            DispatchActs(s, at, to, text) == Act(s, at, e, now, Submissions(at, to, text))
  {
    hide DispatchOrQueue;
    if to == [] {
      ActNothing(s, at);
    } else {
      var k, now := |to| - 1, ClockOf(s, at);
      DispatchActsMeaning(s, at, to[..k], text);
      var e := DispatchAll(s.nodes[at], to[..k], text, now, |s.published|);
      var last := DispatchOrQueue(e.node, to[k], text, now, |s.published| + |e.out|);
      var t, sub := DispatchActs(s, at, to[..k], text), [Submission(at, to[k], text)];
      assert t.nodes[at] == e.node && |t.published| == |s.published| + |e.out|;
      assert DispatchAct(t, at, to[k], text) == Act(t, at, last, now, sub);
      ActTwice(s, at, e, Submissions(at, to[..k], text), last, sub, now);
      assert Submissions(at, to, text) == Submissions(at, to[..k], text) + sub;
    }
  }

  /** A send command is a copy to the local history and one dispatch per recipient. */
  lemma SendStepIsActs(s: System, at: Peer, to: seq<Peer>, text: Text, now: Millis)
    requires Enabled(s, SendStep(at, to, text, now))
    ensures Take(s, SendStep(at, to, text, now)) == DispatchActs(LocalAct(s, at, text, now), at, to, text)
  {
    hide DispatchOrQueue;
    var l := LocalAct(s, at, text, now);
    assert l.published == s.published && l.submitted == s.submitted;
    DispatchActsMeaning(l, at, to, text);
    var e := Send(s.nodes[at], to, text, now, |s.published|);
    assert s.nodes[at := l.nodes[at]][at := e.node] == s.nodes[at := e.node];
    assert s.clocks[at := now][at := now] == s.clocks[at := now];
  }

  // ---- The system invariant ---------------------------------------------

  /** A handler's messages use the random tokens from `tok` on, one each. */
  predicate NumberedFrom(out: seq<Wire>, tok: nat) {
    forall k :: 0 <= k < |out| ==> UsesToken(out[k], tok + k)
  }

  predicate UsesToken(m: Wire, tok: nat) {
    m.nonce == tok && (m.Offer? ==> m.sid == m.nonce && m.pub == PublicKey(m.nonce))
  }

  /** The random token of a node's message is its position in the log, so the nodes'
      tokens are distinct; other peers' messages may carry any. */
  predicate Numbered(p: seq<Wire>, nodes: set<Peer>) {
    forall k :: 0 <= k < |p| && p[k].from in nodes ==> UsesToken(p[k], k)
  }

  predicate NamesRight(s: System) {
    forall a :: a in s.nodes ==> s.nodes[a].me == a
  }

  predicate PairIn(s: System, a: Peer, b: Peer)
    requires a in s.nodes && b in s.nodes
  {
    Pair(s.nodes[a], s.nodes[b], s.published, ClockOf(s, a), ClockOf(s, b))
  }

  predicate AllPairs(s: System) {
    forall a, b :: a in s.nodes && b in s.nodes && a != b ==> PairIn(s, a, b)
  }

  /** Messages to `peer` already published, then those still queued, are exactly
      the messages submitted for `peer`, in order; with a session nothing waits. */
  predicate Conserved(n: Node, peer: Peer, p: seq<Wire>, subs: seq<Submission>) {
    && (peer in n.queued ==> peer !in n.active)
    && Emitted(p, n.me, peer) + QueueFor(n, peer) == Submitted(subs, n.me, peer)
  }

  ghost predicate AllConserved(s: System) {
    forall a, peer {:trigger Conserved(s.nodes[a], peer, s.published, s.submitted)} ::
      a in s.nodes ==> Conserved(s.nodes[a], peer, s.published, s.submitted)
  }

  /** Inbox entry `k` is the opened content of a published envelope from its sender. */
  predicate Genuine(b: Node, p: seq<Wire>, now: Millis, k: nat)
    requires k < |b.inbox|
  {
    var e := b.inbox[k];
    && e.id.FromNonce? && e.id.nonce < |p|
    && Between(p[e.id.nonce], DataKind, e.from, b.me)
    && p[e.id.nonce].payload.plain == e.text
    && Spent(b, p[e.id.nonce], now)
  }

  /** Inbox entry `k` came over the network from one of the nodes. */
  predicate FromNode(b: Node, nodes: set<Peer>, k: nat)
    requires k < |b.inbox|
  {
    b.inbox[k].from in nodes && b.inbox[k].from != b.me
  }

  predicate Delivered(b: Node, p: seq<Wire>, now: Millis, nodes: set<Peer>) {
    && (forall k :: 0 <= k < |b.inbox| && FromNode(b, nodes, k) ==> Genuine(b, p, now, k))
    && (forall j, k :: 0 <= j < k < |b.inbox| && FromNode(b, nodes, j) && FromNode(b, nodes, k) ==> b.inbox[j].id != b.inbox[k].id)
  }

  predicate AllDelivered(s: System) {
    forall b :: b in s.nodes ==> Delivered(s.nodes[b], s.published, ClockOf(s, b), s.nodes.Keys)
  }

  ghost predicate Inv(s: System) {
    NamesRight(s) && Numbered(s.published, s.nodes.Keys) && AllPairs(s) && AllConserved(s) && AllDelivered(s)
  }

  // ---- Preservation -----------------------------------------------------

  lemma OnePairKept(s: System, at: Peer, e: Effect, z: Peer, subs: seq<Submission>, a: Peer, b: Peer)
    requires at in s.nodes && NamesRight(s) && AllPairs(s) && ActsTowards(s.nodes[at], e, z, ClockOf(s, at))
    requires z in s.nodes && z != at ==> Pair(e.node, s.nodes[z], s.published + e.out, ClockOf(s, at), ClockOf(s, z))
    requires a in s.nodes && b in s.nodes && a != b
    ensures PairIn(Act(s, at, e, ClockOf(s, at), subs), a, b)
  {
    hide Opening, SameTowards, KeepsSpent;
    var t := Act(s, at, e, ClockOf(s, at), subs);
    if a == at && b == z {
    } else if b == at && a == z {
    } else {
      hide Select;
      assert Silent(e.out, a, b) by {
        DirectedElsewhere(e.out, at, z, OfferKind, a, b);
        DirectedElsewhere(e.out, at, z, OfferKind, b, a);
        DirectedElsewhere(e.out, at, z, AckKind, a, b);
        DirectedElsewhere(e.out, at, z, AckKind, b, a);
      }
      assert PairIn(s, a, b);
      SelfFrame(s.nodes[a], b, ClockOf(s, a));
      SelfFrame(s.nodes[b], a, ClockOf(s, b));
      PairFrame(s.nodes[a], t.nodes[a], s.nodes[b], t.nodes[b], s.published, e.out,
                ClockOf(s, a), ClockOf(t, a), ClockOf(s, b), ClockOf(t, b));
    }
  }

  lemma PairsKept(s: System, at: Peer, e: Effect, z: Peer, subs: seq<Submission>)
    requires at in s.nodes && NamesRight(s) && AllPairs(s) && ActsTowards(s.nodes[at], e, z, ClockOf(s, at))
    requires z in s.nodes && z != at ==> Pair(e.node, s.nodes[z], s.published + e.out, ClockOf(s, at), ClockOf(s, z))
    ensures AllPairs(Act(s, at, e, ClockOf(s, at), subs))
  {
    hide ActsTowards, Pair, PairIn;
    var t := Act(s, at, e, ClockOf(s, at), subs);
    forall a, b | a in t.nodes && b in t.nodes && a != b ensures PairIn(t, a, b) {
      OnePairKept(s, at, e, z, subs, a, b);
    }
  }

  lemma ConservedElsewhere(n: Node, n': Node, peer: Peer, p: seq<Wire>, out: seq<Wire>, s: seq<Submission>, subs: seq<Submission>)
    requires Conserved(n, peer, p, s) && SameTowards(n, n', peer) && QueueFor(n', peer) == QueueFor(n, peer)
    requires Emitted(out, n.me, peer) == [] && Submitted(subs, n.me, peer) == []
    ensures Conserved(n', peer, p + out, s + subs)
  {
    hide Emitted, Submitted, QueueFor;
    EmittedConcat(p, out, n.me, peer);
    SubmittedConcat(s, subs, n.me, peer);
  }

  lemma ConservedKept(s: System, at: Peer, e: Effect, z: Peer, now: Millis, subs: seq<Submission>)
    requires at in s.nodes && NamesRight(s) && AllConserved(s) && ActsTowards(s.nodes[at], e, z, now)
    requires Conserved(e.node, z, s.published + e.out, s.submitted + subs)
    requires forall a, peer :: a != at || peer != z ==> Submitted(subs, a, peer) == []
    ensures AllConserved(Act(s, at, e, now, subs))
  {
    hide Conserved, KeepsSpent, Emitted, Submitted, QueueFor, SameTowards;
    var t := Act(s, at, e, now, subs);
    forall a, peer | a in t.nodes ensures Conserved(t.nodes[a], peer, t.published, t.submitted) {
      if a != at || peer != z {
        assert Conserved(s.nodes[a], peer, s.published, s.submitted);
        DirectedElsewhere(e.out, at, z, OfferKind, a, peer);
        SelfFrame(s.nodes[a], peer, now);
        ConservedElsewhere(s.nodes[a], t.nodes[a], peer, s.published, e.out, s.submitted, subs);
      }
    }
  }

  lemma SubmittedSnoc(subs: seq<Submission>, x: Submission, from: Peer, to: Peer)
    ensures Submitted(subs + [x], from, to) == Submitted(subs, from, to) + if x.from == from && x.to == to then [x.text] else []
  {
    assert (subs + [x])[..|subs|] == subs;
  }

  lemma DispatchConserves(n: Node, z: Peer, text: Text, now: Millis, p: seq<Wire>, subs: seq<Submission>)
    requires Conserved(n, z, p, subs)
    ensures var e := DispatchOrQueue(n, z, text, now, |p|);
            Conserved(e.node, z, p + e.out, subs + [Submission(n.me, z, text)])
  {
    hide Emitted, Submitted;
    SubmittedSnoc(subs, Submission(n.me, z, text), n.me, z);
    if z in n.active {
      var m := Envelope(n.me, z, n.active[z], text, now, |p|);
      EmittedSnoc(p, m, n.me, z);
    } else if z in n.pending {
      assert p + [] == p;
    } else {
      var m := Offer(n.me, z, |p|, PublicKey(|p|), now, |p|);
      EmittedSnoc(p, m, n.me, z);
    }
  }

  /** Installing a session publishes the queue and nothing else. */
  lemma EstablishConserves(n: Node, z: Peer, ss: ActiveSession, now: Millis, tok: nat, p: seq<Wire>, subs: seq<Submission>)
    requires Conserved(n, z, p, subs)
    ensures var e := Establish(n, z, ss, now, tok); Conserved(e.node, z, p + e.out, subs)
  {
    hide Emitted, Submitted, Envelopes;
    var e := Establish(n, z, ss, now, tok);
    EmittedEnvelopes(n.me, z, ss, QueueFor(n, z), now, tok);
    EmittedConcat(p, e.out, n.me, z);
  }

  lemma MemoryConserves(n: Node, n': Node, z: Peer, p: seq<Wire>, subs: seq<Submission>)
    requires Conserved(n, z, p, subs) && n'.me == n.me && n'.queued == n.queued && n'.active == n.active
    ensures Conserved(n', z, p, subs)
  {
  }

  lemma OfferConserves(n: Node, m: Wire, now: Millis, p: seq<Wire>, subs: seq<Submission>)
    requires Conserved(n, m.from, p, subs) && m.Offer? && PassesReplay(n, m, now)
    ensures var e := ProcessOffer(n, m, now, |p|); Conserved(e.node, m.from, p + e.out, subs)
  {
    hide Emitted, Submitted, Establish, Remember, PassesReplay;
    var s := ActiveSession(m.sid, DeriveSessionKey(|p|, m.pub, m.sid));
    var ack := Ack(n.me, m.from, m.sid, PublicKey(|p|), now, |p|);
    var c := Checked(n, m, now);
    var e := Establish(c, m.from, s, now, |p| + 1);
    EmittedSnoc(p, ack, n.me, m.from);
    assert Conserved(c, m.from, p + [ack], subs);
    EstablishConserves(c, m.from, s, now, |p| + 1, p + [ack], subs);
    assert p + ([ack] + e.out) == (p + [ack]) + e.out;
  }

  lemma AckConserves(n: Node, m: Wire, now: Millis, p: seq<Wire>, subs: seq<Submission>)
    requires Conserved(n, m.from, p, subs) && m.Ack?
    ensures var e := ProcessAck(n, m, now, |p|); Conserved(e.node, m.from, p + e.out, subs)
  {
    hide Conserved, Establish, Remember, PassesReplay;
    var c, z := Checked(n, m, now), m.from;
    assert p + [] == p;
    MemoryConserves(n, c, z, p, subs);
    if z in n.pending {
      var taken := c.(pending := c.pending - {z});
      MemoryConserves(n, taken, z, p, subs);
      EstablishConserves(taken, z, ActiveSession(m.sid, DeriveSessionKey(n.pending[z].secret, m.pub, m.sid)), now, |p|, p, subs);
    }
  }

  lemma ReceiveConserves(n: Node, m: Wire, verified: bool, now: Millis, p: seq<Wire>, subs: seq<Submission>)
    requires Conserved(n, m.from, p, subs)
    ensures var e := Receive(n, m, verified, now, |p|); Conserved(e.node, m.from, p + e.out, subs)
  {
    hide Conserved, Establish, Remember, PassesReplay, ProcessAck;
    assert p + [] == p;
    if m.to == n.me && verified {
      if m.Ack? {
        AckConserves(n, m, now, p, subs);
      } else if m.Offer? && PassesReplay(n, m, now) {
        OfferConserves(n, m, now, p, subs);
      } else {
        MemoryConserves(n, Receive(n, m, verified, now, |p|).node, m.from, p, subs);
      }
    }
  }

  lemma {:induction false} EnvelopesNumbered(me: Peer, peer: Peer, ss: ActiveSession, texts: seq<Text>, now: Millis, tok: nat)
    ensures NumberedFrom(Envelopes(me, peer, ss, texts, now, tok), tok)
  {
    if texts != [] {
      EnvelopesNumbered(me, peer, ss, texts[..|texts| - 1], now, tok);
    }
  }

  lemma ReceiveNumbered(n: Node, m: Wire, verified: bool, now: Millis, tok: nat)
    ensures NumberedFrom(Receive(n, m, verified, now, tok).out, tok)
  {
    hide Envelopes, Remember, PassesReplay;
    var e := Receive(n, m, verified, now, tok);
    if m.from in e.node.active {
      EnvelopesNumbered(n.me, m.from, e.node.active[m.from], QueueFor(n, m.from), now, tok);
      EnvelopesNumbered(n.me, m.from, e.node.active[m.from], QueueFor(n, m.from), now, tok + 1);
    }
  }

  lemma NumberedConcat(p: seq<Wire>, out: seq<Wire>, nodes: set<Peer>)
    requires Numbered(p, nodes) && NumberedFrom(out, |p|)
    ensures Numbered(p + out, nodes)
  {
  }

  /** Nodes that only gain replay memory and see the log grow keep their inbox genuine. */
  lemma DeliveredFrame(b: Node, b': Node, p: seq<Wire>, out: seq<Wire>, now: Millis, later: Millis, nodes: set<Peer>)
    requires Delivered(b, p, now, nodes) && b'.me == b.me && b'.inbox == b.inbox && KeepsSpent(b, b', now, later)
    ensures Delivered(b', p + out, later, nodes)
  {
    hide Spent;
    forall k | 0 <= k < |b'.inbox| && FromNode(b', nodes, k) ensures Genuine(b', p + out, later, k) {
      assert FromNode(b, nodes, k) && Genuine(b, p, now, k);
    }
    forall j, k | 0 <= j < k < |b'.inbox| && FromNode(b', nodes, j) && FromNode(b', nodes, k)
      ensures b'.inbox[j].id != b'.inbox[k].id
    {
      assert FromNode(b, nodes, j) && FromNode(b, nodes, k);
    }
  }

  /** An accepted envelope from a node adds a genuine entry, and no second one for itself. */
  lemma EntryDelivered(c: Node, b: Node, m: Wire, p: seq<Wire>, now: Millis, nodes: set<Peer>)
    requires Delivered(c, p, now, nodes) && b.me == c.me && b.seen == c.seen && Spent(c, m, now)
    requires m.Data? && m in p && m.to == b.me && Numbered(p, nodes)
    requires b.inbox == c.inbox + [InboxEntry(FromNonce(m.nonce), m.from, m.payload.plain, true)]
    requires m.from in nodes ==> forall k :: 0 <= k < |c.inbox| && FromNode(c, nodes, k) ==> c.inbox[k].id != FromNonce(m.nonce)
    ensures Delivered(b, p, now, nodes)
  {
    hide Spent;
    var i :| 0 <= i < |p| && p[i] == m;
    SameMemory(c, b, c, m, now) by { SelfFrame(c, c.me, now); }
    forall k | 0 <= k < |b.inbox| && FromNode(b, nodes, k) ensures Genuine(b, p, now, k) {
      if k < |c.inbox| {
        assert FromNode(c, nodes, k) && Genuine(c, p, now, k);
      } else {
        assert UsesToken(p[i], i);
      }
    }
    forall j, k | 0 <= j < k < |b.inbox| && FromNode(b, nodes, j) && FromNode(b, nodes, k) ensures b.inbox[j].id != b.inbox[k].id {
      assert FromNode(c, nodes, j);
      if k < |c.inbox| {
        assert FromNode(c, nodes, k);
      }
    }
  }

  /** An envelope that passes the replay check is no inbox entry yet. */
  lemma PassingIsNew(b: Node, m: Wire, p: seq<Wire>, now: Millis, nodes: set<Peer>, k: nat)
    requires Delivered(b, p, now, nodes) && Numbered(p, nodes) && m in p && m.from in nodes && PassesReplay(b, m, now)
    requires k < |b.inbox| && FromNode(b, nodes, k)
    ensures b.inbox[k].id != FromNonce(m.nonce)
  {
    hide Spent, PassesReplay;
    var i :| 0 <= i < |p| && p[i] == m;
    assert UsesToken(p[i], i) && Genuine(b, p, now, k);
    if b.inbox[k].id == FromNonce(m.nonce) {
      SpentIsRefused(b, m, now, now);
    }
  }

  lemma DataDelivered(b: Node, m: Wire, p: seq<Wire>, now: Millis, nodes: set<Peer>)
    requires Delivered(b, p, now, nodes) && Numbered(p, nodes)
    requires m.Data? && m in p && m.to == b.me
    ensures Delivered(ProcessData(b, m, now), p, now, nodes)
  {
    hide Spent, PassesReplay, Remember, Delivered, FromNode;
    var c, r := Checked(b, m, now), ProcessData(b, m, now);
    CheckedKeepsSpent(b, m, now, now);
    DeliveredFrame(b, c, p, [], now, now, nodes);
    assert p + [] == p;
    if r != c {
      AcceptedIsSpent(b, m, now);
      forall k | 0 <= k < |c.inbox| && FromNode(c, nodes, k) && m.from in nodes ensures c.inbox[k].id != FromNonce(m.nonce) {
        SameEntries(b, c, nodes, k);
        PassingIsNew(b, m, p, now, nodes, k);
      }
      EntryDelivered(c, r, m, p, now, nodes);
    }
  }

  lemma SameEntries(b: Node, c: Node, nodes: set<Peer>, k: nat)
    requires c.me == b.me && c.inbox == b.inbox && k < |b.inbox|
    ensures FromNode(b, nodes, k) <==> FromNode(c, nodes, k)
  {
  }

  lemma ReceiveKeepsInbox(b: Node, m: Wire, verified: bool, now: Millis, tok: nat)
    requires !m.Data? || m.to != b.me || !verified
    ensures Receive(b, m, verified, now, tok).node.inbox == b.inbox
  {
  }

  lemma ReceiveDelivers(b: Node, m: Wire, p: seq<Wire>, now: Millis, nodes: set<Peer>)
    requires Delivered(b, p, now, nodes) && Numbered(p, nodes)
    ensures var e := Receive(b, m, m in p, now, |p|); Delivered(e.node, p + e.out, now, nodes)
  {
    hide Delivered, KeepsSpent, SameTowards, ProcessOffer, ProcessAck, ProcessData;
    var e := Receive(b, m, m in p, now, |p|);
    if m.Data? && m in p && m.to == b.me {
      DataDelivered(b, m, p, now, nodes);
      assert p + [] == p;
    } else {
      ReceiveKeepsInbox(b, m, m in p, now, |p|);
      ReceiveTouchesOnlyPeer(b, m, m in p, now, |p|);
      DeliveredFrame(b, e.node, p, e.out, now, now, nodes);
    }
  }

  lemma DeliveredKept(s: System, at: Peer, e: Effect, subs: seq<Submission>)
    requires at in s.nodes && AllDelivered(s)
    requires Delivered(e.node, s.published + e.out, ClockOf(s, at), s.nodes.Keys)
    ensures AllDelivered(Act(s, at, e, ClockOf(s, at), subs))
  {
    hide Delivered, KeepsSpent, SameTowards;
    var t := Act(s, at, e, ClockOf(s, at), subs);
    assert t.nodes.Keys == s.nodes.Keys;
    forall b | b in t.nodes ensures Delivered(t.nodes[b], t.published, ClockOf(t, b), t.nodes.Keys) {
      if b != at {
        SelfFrame(s.nodes[b], at, ClockOf(s, b));
        DeliveredFrame(s.nodes[b], s.nodes[b], s.published, e.out, ClockOf(s, b), ClockOf(s, b), s.nodes.Keys);
      }
    }
  }

  // ---- Steps ------------------------------------------------------------

  /** A node's reading of its clock. */
  function Later(s: System, at: Peer, now: Millis): System {
    s.(clocks := s.clocks[at := now])
  }

  lemma LaterKeepsSpent(n: Node, peer: Peer, now: Millis, later: Millis)
    requires now <= later
    ensures KeepsSpent(n, n, now, later) && SameTowards(n, n, peer)
  {
  }

  /** Reading a clock that does not run backwards keeps the invariant. */
  lemma LaterKeepsInv(s: System, at: Peer, now: Millis)
    requires Inv(s) && ClockOf(s, at) <= now
    ensures Inv(Later(s, at, now))
  {
    hide Pair, Silent, Delivered, Conserved, Numbered, KeepsSpent, SameTowards;
    var t := Later(s, at, now);
    NothingSilent();
    assert s.published + [] == s.published;
    forall a, b | a in t.nodes && b in t.nodes && a != b ensures PairIn(t, a, b) {
      assert PairIn(s, a, b);
      LaterKeepsSpent(s.nodes[a], b, ClockOf(s, a), ClockOf(t, a));
      LaterKeepsSpent(s.nodes[b], a, ClockOf(s, b), ClockOf(t, b));
      PairFrame(s.nodes[a], s.nodes[a], s.nodes[b], s.nodes[b], s.published, [],
                ClockOf(s, a), ClockOf(t, a), ClockOf(s, b), ClockOf(t, b));
    }
    forall b | b in t.nodes ensures Delivered(t.nodes[b], t.published, ClockOf(t, b), t.nodes.Keys) {
      LaterKeepsSpent(s.nodes[b], b, ClockOf(s, b), ClockOf(t, b));
      DeliveredFrame(s.nodes[b], s.nodes[b], s.published, [], ClockOf(s, b), ClockOf(t, b), s.nodes.Keys);
    }
    forall a, peer | a in t.nodes ensures Conserved(t.nodes[a], peer, t.published, t.submitted) {
      assert Conserved(s.nodes[a], peer, s.published, s.submitted);
    }
  }

  lemma NothingSilent()
    ensures forall x, y :: Silent([], x, y)
  {
  }

  /** A message of a peer that is none of the nodes, whatever it says, changes nothing
      between them. */
  lemma InjectKeepsInv(s: System, m: Wire)
    requires Inv(s) && m.from !in s.nodes
    ensures Inv(Take(s, Inject(m)))
  {
    hide Pair, Delivered, KeepsSpent, SameTowards, Select, QueueFor;
    var t := Take(s, Inject(m));
    forall a, b | a in t.nodes && b in t.nodes && a != b ensures PairIn(t, a, b) {
      assert PairIn(s, a, b);
      assert Silent([m], a, b) by {
        SelectOne(m, OfferKind, a, b);
        SelectOne(m, OfferKind, b, a);
        SelectOne(m, AckKind, a, b);
        SelectOne(m, AckKind, b, a);
      }
      SelfFrame(s.nodes[a], b, ClockOf(s, a));
      SelfFrame(s.nodes[b], a, ClockOf(s, b));
      PairFrame(s.nodes[a], s.nodes[a], s.nodes[b], s.nodes[b], s.published, [m],
                ClockOf(s, a), ClockOf(s, a), ClockOf(s, b), ClockOf(s, b));
    }
    forall b | b in t.nodes ensures Delivered(t.nodes[b], t.published, ClockOf(t, b), t.nodes.Keys) {
      SelfFrame(s.nodes[b], b, ClockOf(s, b));
      DeliveredFrame(s.nodes[b], s.nodes[b], s.published, [m], ClockOf(s, b), ClockOf(s, b), s.nodes.Keys);
    }
    forall a, peer | a in t.nodes ensures Conserved(t.nodes[a], peer, t.published, t.submitted) {
      assert Conserved(s.nodes[a], peer, s.published, s.submitted);
      EmittedSnoc(s.published, m, a, peer);
    }
  }

  lemma DispatchKeepsPairs(s: System, at: Peer, z: Peer, text: Text)
    requires NamesRight(s) && AllPairs(s) && at in s.nodes
    ensures AllPairs(DispatchAct(s, at, z, text))
  {
    hide Pair, DispatchOrQueue, ActsTowards, AllPairs;
    var n, now := s.nodes[at], ClockOf(s, at);
    DispatchTouchesOnlyPeer(n, z, text, now, |s.published|);
    if z in s.nodes && z != at {
      OnePair(s, at, z);
      DispatchKeepsPair(n, s.nodes[z], s.published, now, ClockOf(s, z), text);
    }
    PairsKept(s, at, DispatchOrQueue(n, z, text, now, |s.published|), z, [Submission(at, z, text)]);
  }

  lemma OnePair(s: System, a: Peer, b: Peer)
    requires AllPairs(s) && a in s.nodes && b in s.nodes && a != b
    ensures Pair(s.nodes[a], s.nodes[b], s.published, ClockOf(s, a), ClockOf(s, b))
  {
    hide Pair;
    assert PairIn(s, a, b);
  }

  lemma DispatchKeepsConserved(s: System, at: Peer, z: Peer, text: Text)
    requires NamesRight(s) && AllConserved(s) && at in s.nodes
    ensures AllConserved(DispatchAct(s, at, z, text))
  {
    hide Conserved, DispatchOrQueue, ActsTowards;
    var n, now, sub := s.nodes[at], ClockOf(s, at), Submission(at, z, text);
    var e := DispatchOrQueue(n, z, text, now, |s.published|);
    DispatchTouchesOnlyPeer(n, z, text, now, |s.published|);
    assert Conserved(n, z, s.published, s.submitted);
    DispatchConserves(n, z, text, now, s.published, s.submitted);
    forall a, peer | a != at || peer != z ensures Submitted([sub], a, peer) == [] {
      SubmittedSnoc([], sub, a, peer);
      assert [] + [sub] == [sub];
    }
    ConservedKept(s, at, e, z, now, [sub]);
  }

  lemma DispatchKeepsInbox(n: Node, z: Peer, text: Text, now: Millis, tok: nat)
    ensures var e := DispatchOrQueue(n, z, text, now, tok); e.node.inbox == n.inbox && e.node.me == n.me && NumberedFrom(e.out, tok)
  {
  }

  lemma DispatchKeepsDelivered(s: System, at: Peer, z: Peer, text: Text)
    requires AllDelivered(s) && at in s.nodes
    ensures AllDelivered(DispatchAct(s, at, z, text))
  {
    hide Delivered, DispatchOrQueue, KeepsSpent, SameTowards;
    var n, now := s.nodes[at], ClockOf(s, at);
    var e := DispatchOrQueue(n, z, text, now, |s.published|);
    DispatchTouchesOnlyPeer(n, z, text, now, |s.published|);
    DispatchKeepsInbox(n, z, text, now, |s.published|);
    DeliveredFrame(n, e.node, s.published, e.out, now, now, s.nodes.Keys);
    DeliveredKept(s, at, e, [Submission(at, z, text)]);
  }

  lemma DispatchKeepsInv(s: System, at: Peer, z: Peer, text: Text)
    requires Inv(s) && at in s.nodes
    ensures Inv(DispatchAct(s, at, z, text))
  {
    hide AllPairs, AllConserved, AllDelivered, Numbered, NumberedFrom, DispatchOrQueue;
    var now := ClockOf(s, at);
    DispatchKeepsPairs(s, at, z, text);
    DispatchKeepsConserved(s, at, z, text);
    DispatchKeepsDelivered(s, at, z, text);
    DispatchKeepsInbox(s.nodes[at], z, text, now, |s.published|);
    NumberedConcat(s.published, DispatchOrQueue(s.nodes[at], z, text, now, |s.published|).out, s.nodes.Keys);
    assert DispatchAct(s, at, z, text).nodes.Keys == s.nodes.Keys;
  }

  /** What a delivery does, at the receiver's clock. */
  function ReceiveAct(s: System, at: Peer, m: Wire): System
    requires at in s.nodes
  {
    var now := ClockOf(s, at);
    Act(s, at, Receive(s.nodes[at], m, m in s.published, now, |s.published|), now, [])
  }

  lemma ReceiveKeepsPairs(s: System, at: Peer, m: Wire)
    requires NamesRight(s) && AllPairs(s) && at in s.nodes
    ensures AllPairs(ReceiveAct(s, at, m))
  {
    hide Pair, Receive, ActsTowards, AllPairs;
    var n, now, z := s.nodes[at], ClockOf(s, at), m.from;
    ReceiveTouchesOnlyPeer(n, m, m in s.published, now, |s.published|);
    if z in s.nodes && z != at {
      OnePair(s, at, z);
      ReceiveKeepsPair(n, s.nodes[z], s.published, m, now, ClockOf(s, z));
    }
    PairsKept(s, at, Receive(n, m, m in s.published, now, |s.published|), z, []);
  }

  lemma ReceiveKeepsConserved(s: System, at: Peer, m: Wire)
    requires NamesRight(s) && AllConserved(s) && at in s.nodes
    ensures AllConserved(ReceiveAct(s, at, m))
  {
    hide Conserved, Receive, ActsTowards;
    var n, now, z := s.nodes[at], ClockOf(s, at), m.from;
    ReceiveTouchesOnlyPeer(n, m, m in s.published, now, |s.published|);
    assert Conserved(n, z, s.published, s.submitted);
    ReceiveConserves(n, m, m in s.published, now, s.published, s.submitted);
    assert s.submitted + [] == s.submitted;
    ConservedKept(s, at, Receive(n, m, m in s.published, now, |s.published|), z, now, []);
  }

  lemma ReceiveKeepsInv(s: System, at: Peer, m: Wire)
    requires Inv(s) && at in s.nodes
    ensures Inv(ReceiveAct(s, at, m))
  {
    hide AllPairs, AllConserved, Delivered, Numbered, NumberedFrom, Receive;
    var n, now := s.nodes[at], ClockOf(s, at);
    var e := Receive(n, m, m in s.published, now, |s.published|);
    ReceiveKeepsPairs(s, at, m);
    ReceiveKeepsConserved(s, at, m);
    ReceiveNumbered(n, m, m in s.published, now, |s.published|);
    NumberedConcat(s.published, e.out, s.nodes.Keys);
    ReceiveDelivers(n, m, s.published, now, s.nodes.Keys);
    DeliveredKept(s, at, e, []);
    ReceiveDirected(n, m, m in s.published, now, |s.published|);
    assert ReceiveAct(s, at, m).nodes.Keys == s.nodes.Keys;
  }

  lemma LocalDelivered(n: Node, p: seq<Wire>, now: Millis, text: Text, nodes: set<Peer>)
    requires Delivered(n, p, now, nodes)
    ensures Delivered(WithLocalHistory(n, text, now), p, now, nodes)
  {
    hide Spent;
    var n' := WithLocalHistory(n, text, now);
    forall k | 0 <= k < |n'.inbox| && FromNode(n', nodes, k) ensures FromNode(n, nodes, k) && Genuine(n', p, now, k) {
      assert FromNode(n, nodes, k) && Genuine(n, p, now, k);
      LocalKeepsMemory(n, text, now, p[n.inbox[k].id.nonce]);
    }
  }

  lemma LocalKeepsMemory(n: Node, text: Text, now: Millis, m: Wire)
    ensures Spent(WithLocalHistory(n, text, now), m, now) <==> Spent(n, m, now)
  {
  }

  lemma LocalActs(n: Node, text: Text, now: Millis)
    ensures ActsTowards(n, Effect(WithLocalHistory(n, text, now), []), n.me, now)
  {
    SelfFrame(n, n.me, now);
  }

  lemma LocalKeepsInv(s: System, at: Peer, text: Text)
    requires Inv(s) && at in s.nodes
    ensures Inv(LocalAct(s, at, text, ClockOf(s, at)))
  {
    hide Delivered, Conserved, Pair, Numbered;
    var n, now := s.nodes[at], ClockOf(s, at);
    var e := Effect(WithLocalHistory(n, text, now), []);
    assert s.submitted + [] == s.submitted && s.published + [] == s.published;
    LocalActs(n, text, now);
    PairsKept(s, at, e, at, []);
    assert Conserved(n, at, s.published, s.submitted);
    MemoryConserves(n, e.node, at, s.published, s.submitted);
    ConservedKept(s, at, e, at, now, []);
    LocalDelivered(n, s.published, now, text, s.nodes.Keys);
    DeliveredKept(s, at, e, []);
    assert LocalAct(s, at, text, now).nodes.Keys == s.nodes.Keys;
  }

  lemma {:induction false} DispatchesKeepInv(s: System, at: Peer, to: seq<Peer>, text: Text)
    requires Inv(s) && at in s.nodes
    ensures Inv(DispatchActs(s, at, to, text))
  {
    hide Inv, DispatchAct;
    if to != [] {
      DispatchesKeepInv(s, at, to[..|to| - 1], text);
      DispatchKeepsInv(DispatchActs(s, at, to[..|to| - 1], text), at, to[|to| - 1], text);
    }
  }

  /** Acting at a reading is reading the clock, then acting. */
  lemma StepReadsClock(s: System, step: Step)
    requires Enabled(s, step) && !step.Inject?
    ensures var t := Later(s, step.at, step.now);
            match step
            case SendStep(at, to, text, now) => Take(s, step) == DispatchActs(LocalAct(t, at, text, now), at, to, text)
            case Deliver(at, m, now) => Take(s, step) == ReceiveAct(t, at, m)
            case Inject(_) => true
  {
    hide Receive, DispatchOrQueue, DispatchAct;
    assert s.clocks[step.at := step.now][step.at := step.now] == s.clocks[step.at := step.now];
    assert s.submitted + [] == s.submitted;
    if step.SendStep? {
      SendStepIsActs(s, step.at, step.to, step.text, step.now);
    }
  }

  lemma TakeKeepsInv(s: System, step: Step)
    requires Inv(s) && Enabled(s, step)
    ensures Inv(Take(s, step))
  {
    hide Inv, Take, DispatchActs, LocalAct, ReceiveAct;
    if step.Inject? {
      InjectKeepsInv(s, step.foreign);
    } else {
      StepReadsClock(s, step);
      LaterKeepsInv(s, step.at, step.now);
      var t := Later(s, step.at, step.now);
      match step
      case SendStep(at, to, text, now) =>
        LocalKeepsInv(t, at, text);
        DispatchesKeepInv(LocalAct(t, at, text, now), at, to, text);
      case Deliver(at, m, _) =>
        ReceiveKeepsInv(t, at, m);
      case _ =>
    }
  }

  lemma InitialInv(peers: set<Peer>)
    ensures Inv(Initial(peers))
  {
  }

  lemma {:induction false} RunKeepsInv(s: System, steps: seq<Step>)
    requires Inv(s) && Possible(s, steps)
    ensures Inv(Run(s, steps))
    decreases |steps|
  {
    hide Inv, Take;
    if steps != [] {
      TakeKeepsInv(s, steps[0]);
      RunKeepsInv(Take(s, steps[0]), steps[1..]);
    }
  }
}
