// When exactly an envelope is delivered. When only one side opens, an envelope that
// passes the replay check is taken if and only if its receiver already holds the
// session. One that comes too early is lost for good, and there are runs in which that
// happens to the responder's first message.

module Delivery {
  import opened Prelude
  import opened Replay
  import opened Session
  import opened Network
  import opened Agreement
  import opened SessionTheorems
  import opened Crossing

  // ---- The exact condition ----------------------------------------------

  /** Between two nodes of which one never opens, the receiver's session, if there is
      one, is the session the envelope is sealed under. */
  lemma EnvelopeFits(s: System, x: Peer, y: Peer, m: Wire)
    requires Reachable(s) && x in s.nodes && y in s.nodes && x != y
    requires NeverOpens(s.published, x, y) || NeverOpens(s.published, y, x)
    requires m in s.published && Between(m, DataKind, x, y) && x in s.nodes[y].active
    ensures s.nodes[y].me == y && s.nodes[y].active[x] == ActiveSession(m.sid, m.payload.key)
  {
    ReachableSealed(s);
    var p, ss := s.published, ActiveSession(m.sid, m.payload.key);
    assert Sealing(p, x, y);
    HeldIsOpened(s, y, x);
    if NeverOpens(p, x, y) {
      NoOfferSelected(p, x, y);
      assert OpenedBy(p, y, x, ss) && OpenedBy(p, y, x, s.nodes[y].active[x]);
    } else {
      NoOfferSelected(p, y, x);
      assert OpenedBy(p, x, y, ss) && OpenedBy(p, x, y, s.nodes[y].active[x]);
    }
  }

  /** In every run in which one of the two never opens: an envelope, from either side and
      whenever it arrives, is taken unaltered exactly when it passes the replay check and
      the receiver holds a session with its sender; otherwise the inbox stays as it is. */
  lemma EnvelopeTakenIff(s: System, x: Peer, y: Peer, m: Wire, now: Millis)
    requires Reachable(s) && x in s.nodes && y in s.nodes && x != y
    requires NeverOpens(s.published, x, y) || NeverOpens(s.published, y, x)
    requires m in s.published && Between(m, DataKind, x, y) && ClockOf(s, y) <= now
    ensures Take(s, Deliver(y, m, now)).nodes[y].inbox
            == s.nodes[y].inbox
             + if PassesReplay(s.nodes[y], m, now) && x in s.nodes[y].active
               then [InboxEntry(FromNonce(m.nonce), x, m.payload.plain, true)] else []
  {
    hide PassesReplay, Remember;
    ReachableInv(s);
    if x in s.nodes[y].active {
      EnvelopeFits(s, x, y, m);
    }
  }

  /** At any node and for any envelope, whoever made it: it enters the inbox exactly when it
      is signed, meant for the node, passes the replay check, and the node's session with
      the sender has the envelope's session id and the key it was sealed with. */
  lemma EntersIff(n: Node, m: Wire, verified: bool, now: Millis, tok: nat)
    requires m.Data?
    ensures Receive(n, m, verified, now, tok).node.inbox
         == n.inbox
          + if verified && m.to == n.me && PassesReplay(n, m, now)
               && m.from in n.active && n.active[m.from] == ActiveSession(m.sid, m.payload.key)
            then [InboxEntry(FromNonce(m.nonce), m.from, m.payload.plain, true)] else []
    ensures Receive(n, m, verified, now, tok).out == []
  {
    hide PassesReplay, Remember;
  }

  /** Nodes left with different sessions do not hear each other: what either sends under
      its own is refused by the other, whenever it comes. */
  lemma DisagreementIsDeaf(s: System, a: Peer, b: Peer, m: Wire, now: Millis)
    requires Reachable(s) && a in s.nodes && b in s.nodes && a != b && !Agree(s, a, b)
    requires Between(m, DataKind, a, b) && ActiveSession(m.sid, m.payload.key) == s.nodes[a].active[b] && ClockOf(s, b) <= now
    ensures Take(s, Deliver(b, m, now)).nodes[b].inbox == s.nodes[b].inbox
  {
    hide PassesReplay, Receive;
    ReachableInv(s);
    EntersIff(s.nodes[b], m, m in s.published, now, |s.published|);
  }

  // ---- Lost for good ----------------------------------------------------

  predicate NoEntry(n: Node, m: Wire) {
    forall k :: 0 <= k < |n.inbox| ==> !(n.inbox[k].from == m.from && n.inbox[k].id == FromNonce(m.nonce))
  }

  /** `y` has spent the envelope `m` and has no inbox entry for it. */
  predicate Lost(s: System, y: Peer, m: Wire) {
    y in s.nodes && Spent(s.nodes[y], m, ClockOf(s, y)) && NoEntry(s.nodes[y], m)
  }

  lemma {:induction false} DispatchAllKeepsMemory(n: Node, peers: seq<Peer>, text: Text, now: Millis, tok: nat)
    ensures var e := DispatchAll(n, peers, text, now, tok); e.node.seen == n.seen && e.node.inbox == n.inbox
    decreases peers
  {
    if peers != [] {
      DispatchAllKeepsMemory(n, peers[..|peers| - 1], text, now, tok);
    }
  }

  lemma SendKeepsLost(n: Node, peers: seq<Peer>, text: Text, now: Millis, tok: nat, m: Wire, before: Millis)
    requires Spent(n, m, before) && NoEntry(n, m) && before <= now
    ensures var n' := Send(n, peers, text, now, tok).node; Spent(n', m, now) && NoEntry(n', m)
  {
    DispatchAllKeepsMemory(WithLocalHistory(n, text, now), peers, text, now, tok);
    SpentStays(n, m, before, m, now);
  }

  lemma TakenIsData(n: Node, w: Wire, verified: bool, now: Millis, tok: nat)
    ensures var n' := Receive(n, w, verified, now, tok).node;
            n'.inbox == n.inbox
            || (verified && w.Data? && PassesReplay(n, w, now)
                && n'.inbox == n.inbox + [InboxEntry(FromNonce(w.nonce), w.from, w.payload.plain, true)])
  {
    hide PassesReplay, Remember;
  }

  /** A node's tokens name its messages. */
  lemma SameToken(p: seq<Wire>, nodes: set<Peer>, m: Wire, w: Wire)
    requires Numbered(p, nodes) && m in p && w in p && m.from == w.from && m.from in nodes && m.nonce == w.nonce
    ensures m == w
  {
    var i :| 0 <= i < |p| && p[i] == m;
    var j :| 0 <= j < |p| && p[j] == w;
    assert UsesToken(p[i], i) && UsesToken(p[j], j);
  }

  lemma ReceiveKeepsLost(n: Node, w: Wire, p: seq<Wire>, nodes: set<Peer>, now: Millis, m: Wire, before: Millis)
    requires Spent(n, m, before) && NoEntry(n, m) && before <= now
    requires Numbered(p, nodes) && m in p && m.from in nodes
    ensures var n' := Receive(n, w, w in p, now, |p|).node; Spent(n', m, now) && NoEntry(n', m)
  {
    hide Spent, PassesReplay, Receive, Numbered;
    var n' := Receive(n, w, w in p, now, |p|).node;
    SpentStays(n, m, before, w, now);
    ReceiveDirected(n, w, w in p, now, |p|);
    LaterKeepsSpent(n, n.me, now, now);
    CheckedKeepsSpent(n, w, now, now);
    SameMemory(if n'.seen == n.seen then n else Checked(n, w, now), n', n, m, now);
    TakenIsData(n, w, w in p, now, |p|);
    if n'.inbox != n.inbox && w.from == m.from && w.nonce == m.nonce {
      SameToken(p, nodes, m, w);
      SpentIsRefused(n, m, before, now);
    }
  }

  lemma TakeKeepsLost(s: System, step: Step, y: Peer, m: Wire)
    requires Inv(s) && Enabled(s, step) && m in s.published && m.from in s.nodes && Lost(s, y, m)
    ensures Lost(Take(s, step), y, m) && m in Take(s, step).published
  {
    hide Spent, NoEntry, Send, Receive, AllPairs, AllConserved, AllDelivered;
    match step
    case SendStep(at, to, text, now) =>
      if at == y {
        SendKeepsLost(s.nodes[y], to, text, now, |s.published|, m, ClockOf(s, y));
      }
    case Deliver(at, w, now) =>
      if at == y {
        ReceiveKeepsLost(s.nodes[y], w, s.published, s.nodes.Keys, now, m, ClockOf(s, y));
      }
    case Inject(_) =>
  }

  lemma {:induction false} RunKeepsLost(s: System, steps: seq<Step>, y: Peer, m: Wire)
    requires Inv(s) && Possible(s, steps) && m in s.published && m.from in s.nodes && Lost(s, y, m)
    ensures Lost(Run(s, steps), y, m)
    decreases |steps|
  {
    hide Inv, Lost, Take;
    if steps != [] {
      TakeKeepsInv(s, steps[0]);
      TakeContinues(s, steps[0]);
      TakeKeepsLost(s, steps[0], y, m);
      assert m.from in s.nodes.Keys;
      RunKeepsLost(Take(s, steps[0]), steps[1..], y, m);
    }
  }

  /** An envelope that passes the replay check before its receiver holds the session is
      lost: whatever happens afterwards, no copy of it ever enters the inbox. */
  lemma EarlyEnvelopeIsLost(s: System, x: Peer, y: Peer, m: Wire, now: Millis, steps: seq<Step>)
    requires Reachable(s) && x in s.nodes && y in s.nodes && x != y
    requires m in s.published && Between(m, DataKind, x, y) && ClockOf(s, y) <= now
    requires PassesReplay(s.nodes[y], m, now) && x !in s.nodes[y].active
    requires Possible(Take(s, Deliver(y, m, now)), steps)
    ensures var t := Run(Take(s, Deliver(y, m, now)), steps); y in t.nodes && NoEntry(t.nodes[y], m)
  {
    hide Remember;
    ReachableInv(s);
    var t := Take(s, Deliver(y, m, now));
    assert t.nodes[y] == Checked(s.nodes[y], m, now);
    AcceptedIsSpent(s.nodes[y], m, now);
    NotYetEntered(s, x, y, m, now);
    TakeKeepsInv(s, Deliver(y, m, now));
    RunKeepsLost(t, steps, y, m);
  }

  lemma NotYetEntered(s: System, x: Peer, y: Peer, m: Wire, now: Millis)
    requires Inv(s) && x in s.nodes && y in s.nodes && x != y && m in s.published && m.from == x
    requires ClockOf(s, y) <= now && PassesReplay(s.nodes[y], m, now)
    ensures NoEntry(s.nodes[y], m)
  {
    hide PassesReplay, Spent, Delivered, AllPairs, AllConserved;
    LaterKeepsInv(s, y, now);
    var t := Later(s, y, now);
    assert t.nodes[y] == s.nodes[y] && t.published == s.published && ClockOf(t, y) == now;
    assert Delivered(t.nodes[y], t.published, now, t.nodes.Keys);
    forall k | 0 <= k < |s.nodes[y].inbox| && s.nodes[y].inbox[k].from == x ensures s.nodes[y].inbox[k].id != FromNonce(m.nonce) {
      EntryIsGenuine(t, x, y, k);
      PassingIsNew(t.nodes[y], m, t.published, now, t.nodes.Keys, k);
    }
  }

  // ---- A run that loses an envelope -------------------------------------

  /** `a` has offered, `b` has accepted and answered with a text of its own; neither the
      ack nor the envelope has arrived. */
  ghost predicate Answered(s: System, a: Peer, b: Peer, ack: Wire, m: Wire) {
    && a in s.nodes && b in s.nodes && AtZero(s)
    && s.nodes[a] == Waiting(a, b, 0)
    && ack in s.published && ack.Ack? && ack.from == b && ack.to == a && ack.sid == 0 && ack.ts == 0
    && m in s.published && m.Data? && m.from == b && m.to == a && m.ts == 0
    && NeverOpens(s.published, b, a)
  }

  lemma OfferAccepted(me: Peer, peer: Peer)
    ensures var n, m := Node(me, map[], map[], map[], map[], []), Offer(peer, me, 0, PublicKey(0), 0, 0);
            var e := Receive(n, m, true, 0, 1);
            && e.node.me == me && peer in e.node.active
            && e.out == [Ack(me, peer, 0, PublicKey(1), 0, 1)]
  {
    var n, m := Node(me, map[], map[], map[], map[], []), Offer(peer, me, 0, PublicKey(0), 0, 0);
    assert Prune(n.seen, Lower(0, REPLAY_WINDOW_MS)) == map[];
    assert PassesReplay(n, m, 0);
  }

  lemma SendOne(n: Node, peer: Peer, tok: nat)
    requires peer in n.active
    ensures Send(n, [peer], HELLO, 0, tok)
         == Effect(WithLocalHistory(n, HELLO, 0), [Envelope(n.me, peer, n.active[peer], HELLO, 0, tok)])
  {
    assert [peer][..0] == [];
    assert DispatchAll(WithLocalHistory(n, HELLO, 0), [], HELLO, 0, tok) == Effect(WithLocalHistory(n, HELLO, 0), []);
  }

  /** `a` has offered. */
  ghost predicate Offered(s: System, a: Peer, b: Peer) {
    && a in s.nodes && b in s.nodes && AtZero(s)
    && s.nodes[a] == Waiting(a, b, 0) && s.nodes[b] == Node(b, map[], map[], map[], map[], [])
    && s.published == [Offer(a, b, 0, PublicKey(0), 0, 0)]
  }

  lemma FirstOffer(peers: set<Peer>, a: Peer, b: Peer)
    requires a in peers && b in peers && a != b
    ensures var step := SendStep(a, [b], HELLO, 0);
            Enabled(Initial(peers), step) && Offered(Take(Initial(peers), step), a, b)
  {
    hide Send;
    FirstSend(a, b, 0);
    var t := Take(Initial(peers), SendStep(a, [b], HELLO, 0));
    assert t.published == [Offer(a, b, 0, PublicKey(0), 0, 0)];
    assert forall x :: ClockOf(t, x) == 0;
  }

  /** `b` has accepted the offer. */
  ghost predicate Accepted(s: System, a: Peer, b: Peer) {
    && a in s.nodes && b in s.nodes && AtZero(s)
    && s.nodes[a] == Waiting(a, b, 0) && s.nodes[b].me == b && a in s.nodes[b].active
    && s.published == [Offer(a, b, 0, PublicKey(0), 0, 0), Ack(b, a, 0, PublicKey(1), 0, 1)]
  }

  lemma OfferTaken(s: System, a: Peer, b: Peer)
    requires Offered(s, a, b) && a != b
    ensures var step := Deliver(b, s.published[0], 0); Enabled(s, step) && Accepted(Take(s, step), a, b)
  {
    hide Receive;
    OfferAccepted(b, a);
    assert ClockOf(s, b) == 0 && s.published[0] in s.published;
    var t := Take(s, Deliver(b, s.published[0], 0));
    assert t.published == [Offer(a, b, 0, PublicKey(0), 0, 0), Ack(b, a, 0, PublicKey(1), 0, 1)];
    forall x ensures ClockOf(t, x) == 0 {
      assert ClockOf(s, x) == 0;
    }
  }

  lemma AnswerSent(s: System, a: Peer, b: Peer) returns (m: Wire)
    requires Accepted(s, a, b) && a != b
    ensures var step := SendStep(b, [a], HELLO, 0); Enabled(s, step) && Answered(Take(s, step), a, b, s.published[1], m)
  {
    hide Send;
    SendOne(s.nodes[b], a, 2);
    assert ClockOf(s, b) == 0;
    m := Envelope(b, a, s.nodes[b].active[a], HELLO, 0, 2);
    var t := Take(s, SendStep(b, [a], HELLO, 0));
    assert t.published == s.published + [m];
    assert t.published[1] == s.published[1] && t.published[2] == m;
    forall x ensures ClockOf(t, x) == 0 {
      assert ClockOf(s, x) == 0;
    }
  }

  lemma Answer(peers: set<Peer>, a: Peer, b: Peer) returns (steps: seq<Step>, ack: Wire, m: Wire)
    requires a in peers && b in peers && a != b
    ensures Possible(Initial(peers), steps) && Answered(Run(Initial(peers), steps), a, b, ack, m)
  {
    hide Take, Enabled, Answered;
    var s := Initial(peers);
    FirstOffer(peers, a, b);
    var offer := SendStep(a, [b], HELLO, 0);
    var t := Take(s, offer);
    OfferTaken(t, a, b);
    var accept := Deliver(b, t.published[0], 0);
    var u := Take(t, accept);
    m := AnswerSent(u, a, b);
    ack := u.published[1];
    steps := [offer, accept, SendStep(b, [a], HELLO, 0)];
    ThreeSteps(s, steps);
  }

  lemma EnvelopeBeforeAck(a: Peer, b: Peer, m: Wire, tok: nat)
    requires m.Data? && m.from == b && m.to == a && m.ts == 0
    ensures PassesReplay(Waiting(a, b, 0), m, 0)
    ensures Receive(Waiting(a, b, 0), m, true, 0, tok) == Effect(Waiting(a, b, 0).(seen := map[ReplayKeyOf(m) := 0]), [])
  {
    assert Prune(Waiting(a, b, 0).seen, Lower(0, REPLAY_WINDOW_MS)) == map[];
  }

  /** The envelope arrives, then the ack, then the envelope again. */
  function Overtaking(a: Peer, ack: Wire, m: Wire): seq<Step> {
    [Deliver(a, m, 0), Deliver(a, ack, 0), Deliver(a, m, 0)]
  }

  lemma OvertakenByEnvelope(s: System, a: Peer, b: Peer, ack: Wire, m: Wire)
    requires Answered(s, a, b, ack, m)
    ensures var steps := Overtaking(a, ack, m);
            && Possible(s, steps)
            && a in Run(s, steps).nodes && b in Run(s, steps).nodes[a].active
            && NeverOpens(Run(s, steps).published, b, a) && m in Run(s, steps).published
  {
    hide Send, Receive, PassesReplay;
    var steps := Overtaking(a, ack, m);
    EnvelopeBeforeAck(a, b, m, |s.published|);
    assert ClockOf(s, a) == 0;
    var t := Take(s, steps[0]);
    assert t.published == s.published && t.nodes[a] == Waiting(a, b, 0).(seen := map[ReplayKeyOf(m) := 0]);
    forall x ensures ClockOf(t, x) == 0 {
      assert ClockOf(s, x) == 0;
    }
    LateAck(t.nodes[a], ack, |t.published|);
    var u := Take(t, steps[1]);
    AckIsNoOffer(t, u, a, b, ack);
    SecondCopy(u, Take(u, steps[2]), a, b, m);
    ThreeSteps(s, steps);
  }

  lemma OvertakingLoses(s: System, a: Peer, b: Peer, ack: Wire, m: Wire, more: seq<Step>)
    requires Reachable(s) && Answered(s, a, b, ack, m) && a != b
    requires var steps := Overtaking(a, ack, m); Possible(s, steps) && Possible(Run(s, steps), more)
    ensures var t := Run(Run(s, Overtaking(a, ack, m)), more); a in t.nodes && NoEntry(t.nodes[a], m)
  {
    hide Send, Receive, PassesReplay, NoEntry, Reachable;
    var steps := Overtaking(a, ack, m);
    EnvelopeBeforeAck(a, b, m, |s.published|);
    assert ClockOf(s, a) == 0;
    RunConcat(s, steps, more);
    assert (steps + more)[0] == Deliver(a, m, 0);
    EarlyEnvelopeIsLost(s, b, a, m, 0, (steps + more)[1..]);
  }

  /** The run is real, with one side opening: an envelope the responder sends overtakes
      its ack, and although the session is established afterwards and the envelope comes
      again, it is never delivered. */
  lemma OvertakingEnvelopeIsLost(peers: set<Peer>, a: Peer, b: Peer) returns (steps: seq<Step>, m: Wire)
    requires a in peers && b in peers && a != b
    ensures Possible(Initial(peers), steps)
    ensures var s := Run(Initial(peers), steps);
            && a in s.nodes && b in s.nodes[a].active && NeverOpens(s.published, b, a)
            && m in s.published && Between(m, DataKind, b, a)
            && forall more :: Possible(s, more) ==> a in Run(s, more).nodes && NoEntry(Run(s, more).nodes[a], m)
  {
    hide Run, Possible, NoEntry, NeverOpens;
    var first, ack, w := Answer(peers, a, b);
    m := w;
    var t := Run(Initial(peers), first);
    assert Reachable(t);
    OvertakenByEnvelope(t, a, b, ack, m);
    steps := first + Overtaking(a, ack, m);
    RunConcat(Initial(peers), first, Overtaking(a, ack, m));
    var s := Run(Initial(peers), steps);
    forall more | Possible(s, more) ensures a in Run(s, more).nodes && NoEntry(Run(s, more).nodes[a], m) {
      OvertakingLoses(t, a, b, ack, m, more);
    }
  }

  lemma AckIsNoOffer(s: System, t: System, a: Peer, b: Peer, ack: Wire)
    requires a in s.nodes && AtZero(s) && t == Take(s, Deliver(a, ack, 0)) && NeverOpens(s.published, b, a)
    ensures NeverOpens(t.published, b, a) && AtZero(t) && forall w :: w in s.published ==> w in t.published
  {
    hide Receive;
    var e := Receive(s.nodes[a], ack, ack in s.published, 0, |s.published|);
    ReceiveNeverOffers(s.nodes[a], ack, ack in s.published, 0, |s.published|);
    forall k | 0 <= k < |t.published| ensures !Between(t.published[k], OfferKind, b, a) {
      if k >= |s.published| {
        assert t.published[k] == e.out[k - |s.published|] && t.published[k] in e.out;
      }
    }
    forall x ensures ClockOf(t, x) == 0 {
      assert ClockOf(s, x) == 0;
    }
  }

  lemma SecondCopy(s: System, t: System, a: Peer, b: Peer, m: Wire)
    requires a in s.nodes && AtZero(s) && m.Data? && t == Take(s, Deliver(a, m, 0)) && b in s.nodes[a].active
    ensures t.published == s.published && a in t.nodes && b in t.nodes[a].active && Enabled(s, Deliver(a, m, 0))
  {
    hide PassesReplay, Remember;
    assert s.published + [] == s.published;
  }

  lemma {:induction false} RunConcat(s: System, first: seq<Step>, rest: seq<Step>)
    requires Possible(s, first)
    ensures Possible(s, first + rest) <==> Possible(Run(s, first), rest)
    ensures Possible(s, first + rest) ==> Run(s, first + rest) == Run(Run(s, first), rest)
    decreases |first|
  {
    hide Take;
    if first == [] {
      assert first + rest == rest;
    } else {
      assert (first + rest)[1..] == first[1..] + rest;
      RunConcat(Take(s, first[0]), first[1..], rest);
    }
  }

  lemma TwoSteps(s: System, steps: seq<Step>)
    requires |steps| == 2 && Enabled(s, steps[0]) && Enabled(Take(s, steps[0]), steps[1])
    ensures Possible(s, steps) && Run(s, steps) == Take(Take(s, steps[0]), steps[1])
  {
    hide Take;
    Prepend(Take(s, steps[0]), steps[1], []);
    Prepend(s, steps[0], [steps[1]] + []);
    assert steps == [steps[0]] + ([steps[1]] + []);
  }

  lemma ThreeSteps(s: System, steps: seq<Step>)
    requires |steps| == 3 && Enabled(s, steps[0])
    requires Enabled(Take(s, steps[0]), steps[1]) && Enabled(Take(Take(s, steps[0]), steps[1]), steps[2])
    ensures Possible(s, steps) && Run(s, steps) == Take(Take(Take(s, steps[0]), steps[1]), steps[2])
  {
    hide Take;
    TwoSteps(Take(s, steps[0]), steps[1..]);
    Prepend(s, steps[0], steps[1..]);
    assert steps == [steps[0]] + steps[1..];
  }
}
