// The negotiation from end to end: a first message to a peer brings a session about and
// arrives, and an ack for another session only ends the attempt it answers.

module Handshake {
  import opened Prelude
  import opened Replay
  import opened Session
  import opened Network
  import opened Agreement
  import opened SessionTheorems
  import opened Crossing
  import opened Delivery
  import opened Timely

  // ---- The three handlers -----------------------------------------------

  /** A first text is queued behind an offer. */
  lemma SendOpens(n: Node, b: Peer, text: Text, now: Millis, tok: nat)
    requires b !in n.active && b !in n.pending && QueueFor(n, b) == []
    ensures var e := Send(n, [b], text, now, tok);
            && e.out == [Offer(n.me, b, tok, PublicKey(tok), now, tok)]
            && b in e.node.pending && e.node.pending[b] == PendingSession(tok, tok) && QueueFor(e.node, b) == [text]
            && e.node.me == n.me && e.node.seen == n.seen
  {
    var h := WithLocalHistory(n, text, now);
    assert [b][..0] == [];
    assert DispatchAll(h, [], text, now, tok) == Effect(h, []);
    assert QueueFor(h, b) + [text] == [text];
  }

  /** An offer is answered by an ack for its session id. */
  lemma OfferAnswered(n: Node, m: Wire, now: Millis, tok: nat)
    requires m.Offer? && m.to == n.me && PassesReplay(n, m, now)
    ensures var e := Receive(n, m, true, now, tok);
            && |e.out| >= 1 && e.out[0] == Ack(n.me, m.from, m.sid, PublicKey(tok), now, tok)
            && e.node.me == n.me && m.from in e.node.active && e.node.inbox == n.inbox
  {
    hide Remember, PassesReplay;
  }

  /** The awaited ack releases the queued text. */
  lemma AckAnswered(n: Node, m: Wire, text: Text, now: Millis, tok: nat)
    requires m.Ack? && m.to == n.me && PassesReplay(n, m, now)
    requires m.from in n.pending && n.pending[m.from].sid == m.sid && QueueFor(n, m.from) == [text]
    ensures var e := Receive(n, m, true, now, tok);
            && m.from in e.node.active && |e.out| == 1
            && Between(e.out[0], DataKind, n.me, m.from) && e.out[0].payload.plain == text && e.out[0].ts == now && e.out[0].nonce == tok
  {
    hide Remember, PassesReplay;
    assert [text][..0] == [];
  }

  // ---- The first message ------------------------------------------------

  /** `a` has no dealings with `b`, which has never opened. */
  ghost predicate Strangers(s: System, a: Peer, b: Peer) {
    && Reachable(s) && a in s.nodes && b in s.nodes && a != b
    && b !in s.nodes[a].active && b !in s.nodes[a].pending && NeverOpens(s.published, b, a)
  }

  lemma NothingQueued(s: System, a: Peer, b: Peer)
    requires Strangers(s, a, b)
    ensures QueueFor(s.nodes[a], b) == [] && s.nodes[a].me == a && s.nodes[b].me == b
  {
    ReachableInv(s);
    QueueAwaitsItsOnlyOffer(s, a, b);
  }

  /** `a` waits for the answer to `offer`, with one text queued. */
  ghost predicate Offering(s: System, a: Peer, b: Peer, text: Text, offer: Wire) {
    && Reachable(s) && a in s.nodes && b in s.nodes && a != b && s.nodes[a].me == a && s.nodes[b].me == b
    && NeverOpens(s.published, b, a)
    && offer in s.published && offer.Offer? && Between(offer, OfferKind, a, b)
    && b in s.nodes[a].pending && s.nodes[a].pending[b].sid == offer.sid && QueueFor(s.nodes[a], b) == [text]
  }

  lemma FirstStep(s: System, a: Peer, b: Peer, text: Text, t: Millis) returns (offer: Wire)
    requires Strangers(s, a, b) && ClockOf(s, a) <= t
    ensures var u := Take(s, SendStep(a, [b], text, t));
            && Offering(u, a, b, text, offer) && offer.ts == t && ReplayKeyOf(offer) !in u.nodes[b].seen
            && u.nodes[b] == s.nodes[b] && ClockOf(u, a) == t && ClockOf(u, b) == ClockOf(s, b)
  {
    hide Send;
    NothingQueued(s, a, b);
    SendOpens(s.nodes[a], b, text, t, |s.published|);
    ReachableStep(s, SendStep(a, [b], text, t));
    NewTokenUnseen(s, a, b, OfferKind);
    offer := Offer(a, b, |s.published|, PublicKey(|s.published|), t, |s.published|);
    var u := Take(s, SendStep(a, [b], text, t));
    assert u.published == s.published + [offer] && u.published[|s.published|] == offer;
  }

  /** `b` holds a session with `a`, whose ack is on its way. */
  ghost predicate Acking(s: System, a: Peer, b: Peer, text: Text, ack: Wire) {
    && Reachable(s) && a in s.nodes && b in s.nodes && a != b && s.nodes[a].me == a && s.nodes[b].me == b
    && NeverOpens(s.published, b, a)
    && ack in s.published && ack.Ack? && Between(ack, AckKind, b, a)
    && b in s.nodes[a].pending && s.nodes[a].pending[b].sid == ack.sid && QueueFor(s.nodes[a], b) == [text]
    && a in s.nodes[b].active
  }

  lemma NoNewOffers(s: System, at: Peer, m: Wire, now: Millis, x: Peer, y: Peer)
    requires Enabled(s, Deliver(at, m, now)) && NeverOpens(s.published, x, y)
    ensures NeverOpens(Take(s, Deliver(at, m, now)).published, x, y)
  {
    hide Receive;
    ReceiveNeverOffers(s.nodes[at], m, m in s.published, now, |s.published|);
    var out := Receive(s.nodes[at], m, m in s.published, now, |s.published|).out;
    assert forall k :: 0 <= k < |out| ==> out[k] in out;
  }

  lemma SecondStep(s: System, a: Peer, b: Peer, text: Text, offer: Wire, t: Millis) returns (ack: Wire)
    requires Offering(s, a, b, text, offer) && ReplayKeyOf(offer) !in s.nodes[b].seen
    requires ClockOf(s, b) <= t && Close(offer.ts, t)
    ensures var u := Take(s, Deliver(b, offer, t));
            && Acking(u, a, b, text, ack) && ack.ts == t && ReplayKeyOf(ack) !in u.nodes[a].seen
            && u.nodes[a] == s.nodes[a] && u.nodes[b].inbox == s.nodes[b].inbox
            && ClockOf(u, a) == ClockOf(s, a) && ClockOf(u, b) == t
  {
    hide Receive, PassesReplay;
    UnseenPasses(s.nodes[b], offer, t);
    OfferAnswered(s.nodes[b], offer, t, |s.published|);
    ReachableStep(s, Deliver(b, offer, t));
    NewTokenUnseen(s, b, a, AckKind);
    NoNewOffers(s, b, offer, t, b, a);
    ack := Ack(b, a, offer.sid, PublicKey(|s.published|), t, |s.published|);
    assert Take(s, Deliver(b, offer, t)).published[|s.published|] == ack;
  }

  lemma ThirdStep(s: System, a: Peer, b: Peer, text: Text, ack: Wire, t: Millis) returns (m: Wire)
    requires Acking(s, a, b, text, ack) && ReplayKeyOf(ack) !in s.nodes[a].seen
    requires ClockOf(s, a) <= t && Close(ack.ts, t)
    ensures var u := Take(s, Deliver(a, ack, t));
            && Reachable(u) && NeverOpens(u.published, b, a) && a in u.nodes && b in u.nodes && b in u.nodes[a].active
            && m in u.published && Between(m, DataKind, a, b) && m.payload.plain == text && m.ts == t
            && ReplayKeyOf(m) !in u.nodes[b].seen && u.nodes[b] == s.nodes[b] && ClockOf(u, b) == ClockOf(s, b)
  {
    hide Receive, PassesReplay;
    UnseenPasses(s.nodes[a], ack, t);
    AckAnswered(s.nodes[a], ack, text, t, |s.published|);
    ReachableStep(s, Deliver(a, ack, t));
    NewTokenUnseen(s, a, b, DataKind);
    NoNewOffers(s, a, ack, t, b, a);
    var u := Take(s, Deliver(a, ack, t));
    m := Receive(s.nodes[a], ack, true, t, |s.published|).out[0];
    assert u.published[|s.published|] == m;
  }

  lemma FourSteps(s: System, steps: seq<Step>)
    requires |steps| == 4 && Enabled(s, steps[0]) && Enabled(Take(s, steps[0]), steps[1])
    requires var t := Take(Take(s, steps[0]), steps[1]); Enabled(t, steps[2]) && Enabled(Take(t, steps[2]), steps[3])
    ensures Possible(s, steps) && Run(s, steps) == Take(Take(Take(Take(s, steps[0]), steps[1]), steps[2]), steps[3])
  {
    hide Take;
    ThreeSteps(Take(s, steps[0]), steps[1..]);
    Prepend(s, steps[0], steps[1..]);
    assert steps == [steps[0]] + steps[1..];
  }

  /** A first message brings its session about and arrives: in any reachable state in which
      `a` has no dealings with `b` and `b` never opened, the text `a` sends is in `b`'s inbox
      once the offer, the ack and the envelope have been delivered, each within the replay
      window of the reading it was stamped with; and the two then hold one session. */
  lemma FirstMessageArrives(s: System, a: Peer, b: Peer, text: Text, t0: Millis, t1: Millis, t2: Millis, t3: Millis)
    returns (offer: Wire, ack: Wire, m: Wire)
    requires Strangers(s, a, b)
    requires ClockOf(s, a) <= t0 <= t2 && ClockOf(s, b) <= t1 <= t3 && Close(t0, t1) && Close(t1, t2) && Close(t2, t3)
    ensures var steps := [SendStep(a, [b], text, t0), Deliver(b, offer, t1), Deliver(a, ack, t2), Deliver(b, m, t3)];
            && Possible(s, steps)
            && var u := Run(s, steps);
               && a in u.nodes && b in u.nodes
               && u.nodes[b].inbox == s.nodes[b].inbox + [InboxEntry(FromNonce(m.nonce), a, text, true)]
               && b in u.nodes[a].active && a in u.nodes[b].active && u.nodes[a].active[b] == u.nodes[b].active[a]
  {
    hide Take, Reachable, NeverOpens, Run, Possible, PassesReplay;
    offer := FirstStep(s, a, b, text, t0);
    var s1 := Take(s, SendStep(a, [b], text, t0));
    ack := SecondStep(s1, a, b, text, offer, t1);
    var s2 := Take(s1, Deliver(b, offer, t1));
    m := ThirdStep(s2, a, b, text, ack, t2);
    var s3 := Take(s2, Deliver(a, ack, t2));
    UnseenPasses(s3.nodes[b], m, t3);
    EnvelopeTakenIff(s3, a, b, m, t3);
    var s4 := Take(s3, Deliver(b, m, t3));
    FourSteps(s, [SendStep(a, [b], text, t0), Deliver(b, offer, t1), Deliver(a, ack, t2), Deliver(b, m, t3)]);
    NoNewOffers(s3, b, m, t3, b, a);
    ReachableStep(s3, Deliver(b, m, t3));
    TakeContinues(s3, Deliver(b, m, t3));
    assert a in s3.nodes.Keys && b in s3.nodes.Keys;
    KeyAgreement(s4, a, b);
  }

  // ---- Acks that do not match -------------------------------------------

  /** Between two nodes no awaited ack ever names another session. */
  lemma AckMatches(s: System, a: Peer, b: Peer, m: Wire)
    requires Reachable(s) && a in s.nodes && b in s.nodes && a != b
    requires m in s.published && Between(m, AckKind, b, a) && b in s.nodes[a].pending
    ensures m.sid == s.nodes[a].pending[b].sid
  {
    ReachableInv(s);
    OnePair(s, a, b);
    SelectHas(s.published, m, AckKind, b, a);
  }

  /** An ack for another session, which only a peer that does not follow the protocol
      sends, ends the attempt: nothing is installed, nothing leaves the queue, and the next
      text to that peer goes behind the queued ones and opens a new negotiation. */
  lemma StrayAckEndsAttempt(n: Node, m: Wire, now: Millis, tok: nat, text: Text, later: Millis, next: nat)
    requires m.Ack? && m.to == n.me && PassesReplay(n, m, now) && m.from !in n.active
    requires m.from in n.pending && n.pending[m.from].sid != m.sid
    ensures var e := Receive(n, m, true, now, tok);
            && e.out == [] && e.node == n.(seen := e.node.seen, pending := n.pending - {m.from})
            && var f := DispatchOrQueue(e.node, m.from, text, later, next);
               && QueueFor(f.node, m.from) == QueueFor(n, m.from) + [text]
               && f.out == [Offer(n.me, m.from, next, PublicKey(next), later, next)]
  {
    hide Remember, PassesReplay;
  }
}
