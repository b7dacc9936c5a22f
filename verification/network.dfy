// Runs of the session protocol: any number of nodes, each with its own clock, a log
// of everything ever published, and a network that may deliver any published message
// to anyone, any number of times, in any order, or never. Other peers may publish
// messages of any content in their own name. Forged messages fail the signature
// check, so a delivery takes effect only when it was published.

module Network {
  import opened Prelude
  import opened Replay
  import opened Session

  datatype Submission = Submission(from: Peer, to: Peer, text: Text)

  datatype System = System(nodes: map<Peer, Node>, clocks: map<Peer, Millis>, published: seq<Wire>, submitted: seq<Submission>)

  /** The last reading of a node's own clock. */
  function ClockOf(s: System, at: Peer): Millis {
    if at in s.clocks then s.clocks[at] else 0
  }

  datatype Step =
    | SendStep(at: Peer, to: seq<Peer>, text: Text, now: Millis)
    | Deliver(at: Peer, m: Wire, now: Millis)
    | Inject(foreign: Wire)

  function Submissions(from: Peer, to: seq<Peer>, text: Text): seq<Submission> {
    if to == [] then []
    else Submissions(from, to[..|to| - 1], text) + [Submission(from, to[|to| - 1], text)]
  }

  /** Clocks of nodes never run backwards; a foreign message is signed by its sender,
      which is none of the nodes. */
  predicate Enabled(s: System, step: Step) {
    match step
    case Inject(m) => m.from !in s.nodes
    case _ => step.at in s.nodes && ClockOf(s, step.at) <= step.now
  }

  function Take(s: System, step: Step): System
    requires Enabled(s, step)
  {
    var tok := |s.published|;
    match step
    case SendStep(at, to, text, now) =>
      var e := Send(s.nodes[at], to, text, now, tok);
      System(s.nodes[at := e.node], s.clocks[at := now], s.published + e.out, s.submitted + Submissions(at, to, text))
    case Deliver(at, m, now) =>
      var e := Receive(s.nodes[at], m, m in s.published, now, tok);
      System(s.nodes[at := e.node], s.clocks[at := now], s.published + e.out, s.submitted)
    case Inject(m) =>
      s.(published := s.published + [m])
  }

  function Initial(peers: set<Peer>): System {
    System(map p | p in peers :: Node(p, map[], map[], map[], map[], []), map[], [], [])
  }

  predicate Possible(s: System, steps: seq<Step>)
    decreases |steps|
  {
    steps == [] || (Enabled(s, steps[0]) && Possible(Take(s, steps[0]), steps[1..]))
  }

  function Run(s: System, steps: seq<Step>): System
    requires Possible(s, steps)
    decreases |steps|
  {
    if steps == [] then s else Run(Take(s, steps[0]), steps[1..])
  }

  // ---- Looking at the log -----------------------------------------------

  predicate Between(m: Wire, kind: MessageKind, from: Peer, to: Peer) {
    KindOf(m) == kind && m.from == from && m.to == to
  }

  /** The published messages of one kind from one peer to another, in order. */
  function Select(p: seq<Wire>, kind: MessageKind, from: Peer, to: Peer): seq<Wire> {
    if p == [] then []
    else Select(p[..|p| - 1], kind, from, to) + if Between(p[|p| - 1], kind, from, to) then [p[|p| - 1]] else []
  }

  /** The texts sealed into the envelopes from one peer to another, in order. */
  function Emitted(p: seq<Wire>, from: Peer, to: Peer): seq<Text> {
    if p == [] then []
    else Emitted(p[..|p| - 1], from, to) + if Between(p[|p| - 1], DataKind, from, to) then [p[|p| - 1].payload.plain] else []
  }

  function Submitted(s: seq<Submission>, from: Peer, to: Peer): seq<Text> {
    if s == [] then []
    else
      Submitted(s[..|s| - 1], from, to)
      + if s[|s| - 1].from == from && s[|s| - 1].to == to then [s[|s| - 1].text] else []
  }

  lemma {:induction false} SelectConcat(p: seq<Wire>, q: seq<Wire>, kind: MessageKind, from: Peer, to: Peer)
    ensures Select(p + q, kind, from, to) == Select(p, kind, from, to) + Select(q, kind, from, to)
  {
    if q == [] {
      assert p + q == p;
    } else {
      SelectConcat(p, q[..|q| - 1], kind, from, to);
      assert (p + q)[..|p + q| - 1] == p + q[..|q| - 1];
    }
  }

  lemma {:induction false} EmittedConcat(p: seq<Wire>, q: seq<Wire>, from: Peer, to: Peer)
    ensures Emitted(p + q, from, to) == Emitted(p, from, to) + Emitted(q, from, to)
  {
    if q == [] {
      assert p + q == p;
    } else {
      EmittedConcat(p, q[..|q| - 1], from, to);
      assert (p + q)[..|p + q| - 1] == p + q[..|q| - 1];
    }
  }

  lemma {:induction false} SubmittedConcat(p: seq<Submission>, q: seq<Submission>, from: Peer, to: Peer)
    ensures Submitted(p + q, from, to) == Submitted(p, from, to) + Submitted(q, from, to)
  {
    if q == [] {
      assert p + q == p;
    } else {
      SubmittedConcat(p, q[..|q| - 1], from, to);
      assert (p + q)[..|p + q| - 1] == p + q[..|q| - 1];
    }
  }

  lemma {:induction false} SelectHas(p: seq<Wire>, m: Wire, kind: MessageKind, from: Peer, to: Peer)
    ensures m in Select(p, kind, from, to) <==> m in p && Between(m, kind, from, to)
  {
    if p != [] {
      SelectHas(p[..|p| - 1], m, kind, from, to);
      assert p == p[..|p| - 1] + [p[|p| - 1]];
    }
  }

  lemma SelectOne(m: Wire, kind: MessageKind, from: Peer, to: Peer)
    ensures Select([m], kind, from, to) == if Between(m, kind, from, to) then [m] else []
  {
    assert [m][..0] == [];
  }

  lemma {:induction false} SelectEnvelopes(me: Peer, peer: Peer, s: ActiveSession, texts: seq<Text>, now: Millis, tok: nat,
                                           kind: MessageKind, from: Peer, to: Peer)
    requires kind != DataKind
    ensures Select(Envelopes(me, peer, s, texts, now, tok), kind, from, to) == []
  {
    if texts != [] {
      var n := |texts| - 1;
      SelectEnvelopes(me, peer, s, texts[..n], now, tok, kind, from, to);
      var init, last := Envelopes(me, peer, s, texts[..n], now, tok), Envelope(me, peer, s, texts[n], now, tok + n);
      assert (init + [last])[..|init|] == init;
    }
  }

  lemma EmittedSnoc(p: seq<Wire>, m: Wire, from: Peer, to: Peer)
    ensures Emitted(p + [m], from, to) == Emitted(p, from, to) + if Between(m, DataKind, from, to) then [m.payload.plain] else []
  {
    assert (p + [m])[..|p|] == p;
  }

  lemma {:induction false} EmittedEnvelopes(me: Peer, peer: Peer, s: ActiveSession, texts: seq<Text>, now: Millis, tok: nat)
    ensures Emitted(Envelopes(me, peer, s, texts, now, tok), me, peer) == texts
  {
    if texts != [] {
      var n := |texts| - 1;
      EmittedEnvelopes(me, peer, s, texts[..n], now, tok);
      EmittedSnoc(Envelopes(me, peer, s, texts[..n], now, tok), Envelope(me, peer, s, texts[n], now, tok + n), me, peer);
      assert texts == texts[..n] + [texts[n]];
    }
  }

  // ---- Spent messages ---------------------------------------------------

  /** The node's replay memory can never again accept `m`. */
  predicate Spent(n: Node, m: Wire, now: Millis) {
    || (ReplayKeyOf(m) in n.seen && n.seen[ReplayKeyOf(m)] == m.ts)
    || m.ts < Lower(now, REPLAY_WINDOW_MS)
  }

  lemma SpentIsRefused(n: Node, m: Wire, now: Millis, later: Millis)
    requires Spent(n, m, now) && now <= later
    ensures !PassesReplay(n, m, later)
  {
  }

  lemma SpentStays(n: Node, m: Wire, now: Millis, other: Wire, later: Millis)
    requires Spent(n, m, now) && now <= later
    ensures Spent(n, m, later) && Spent(Checked(n, other, later), m, later)
  {
  }

  lemma AcceptedIsSpent(n: Node, m: Wire, now: Millis)
    requires PassesReplay(n, m, now)
    ensures Spent(Checked(n, m, now), m, now)
  {
  }

  // ---- The invariant of a pair of nodes ---------------------------------

  /** `s` is the session opened by `i`'s offer and `r`'s ack. */
  predicate OpenedBy(p: seq<Wire>, i: Peer, r: Peer, s: ActiveSession) {
    var offers, acks := Select(p, OfferKind, i, r), Select(p, AckKind, r, i);
    && |offers| == 1 && |acks| == 1
    && offers[0].Offer? && acks[0].Ack?
    && s.sid == offers[0].sid == acks[0].sid
    && s.key == SessionKey({offers[0].pub.exponent, acks[0].pub.exponent}, s.sid)
  }

  predicate Opened(p: seq<Wire>, x: Peer, y: Peer, s: ActiveSession) {
    OpenedBy(p, x, y, s) || OpenedBy(p, y, x, s)
  }

  /** The state of `a`'s attempt to open a session with `b`, whose clock reads `now`. */
  predicate Opening(a: Node, b: Node, p: seq<Wire>, now: Millis) {
    var offers, acks := Select(p, OfferKind, a.me, b.me), Select(p, AckKind, b.me, a.me);
    && |offers| <= 1 && |acks| <= 1
    && (|offers| == 1 ==> offers[0].Offer?)
    && (b.me in a.pending ==>
          && |offers| == 1
          && offers[0].sid == a.pending[b.me].sid
          && offers[0].pub == PublicKey(a.pending[b.me].secret))
    && (|offers| == 1 && b.me !in a.pending ==> b.me in a.active)
    && (|acks| == 1 ==>
          && |offers| == 1 && acks[0].Ack?
          && acks[0].sid == offers[0].sid
          && Spent(b, offers[0], now)
          && a.me in b.active)
    && (b.me in a.active ==> Opened(p, a.me, b.me, a.active[b.me]))
    && (b.me in a.queued ==> b.me in a.pending && b.me !in a.active)
  }

  /** Both directions; each node's spent messages are judged by its own clock. */
  predicate Pair(a: Node, b: Node, p: seq<Wire>, nowA: Millis, nowB: Millis) {
    Opening(a, b, p, nowB) && Opening(b, a, p, nowA)
  }

  /** `n'` looks like `n` to `peer`: same negotiation, session and queue. */
  predicate SameTowards(n: Node, n': Node, peer: Peer) {
    && n'.me == n.me
    && (peer in n'.pending <==> peer in n.pending) && (peer in n.pending ==> n'.pending[peer] == n.pending[peer])
    && (peer in n'.active <==> peer in n.active) && (peer in n.active ==> n'.active[peer] == n.active[peer])
    && (peer in n'.queued <==> peer in n.queued)
  }

  /** Nothing in `out` negotiates between `x` and `y`. */
  predicate Silent(out: seq<Wire>, x: Peer, y: Peer) {
    && Select(out, OfferKind, x, y) == [] && Select(out, OfferKind, y, x) == []
    && Select(out, AckKind, x, y) == [] && Select(out, AckKind, y, x) == []
  }

  lemma SilentKeepsSelect(p: seq<Wire>, out: seq<Wire>, x: Peer, y: Peer)
    requires Silent(out, x, y)
    ensures Select(p + out, OfferKind, x, y) == Select(p, OfferKind, x, y)
    ensures Select(p + out, OfferKind, y, x) == Select(p, OfferKind, y, x)
    ensures Select(p + out, AckKind, x, y) == Select(p, AckKind, x, y)
    ensures Select(p + out, AckKind, y, x) == Select(p, AckKind, y, x)
  {
    SelectConcat(p, out, OfferKind, x, y);
    SelectConcat(p, out, OfferKind, y, x);
    SelectConcat(p, out, AckKind, x, y);
    SelectConcat(p, out, AckKind, y, x);
  }

  /** Spent messages stay spent from one version of a node to the next. */
  ghost predicate KeepsSpent(n: Node, n': Node, now: Millis, now': Millis) {
    forall m :: Spent(n, m, now) ==> Spent(n', m, now')
  }

  lemma OpeningFrame(a: Node, a': Node, b: Node, b': Node, p: seq<Wire>, out: seq<Wire>, now: Millis, now': Millis)
    requires Opening(a, b, p, now) && Silent(out, a.me, b.me)
    requires SameTowards(a, a', b.me) && SameTowards(b, b', a.me) && KeepsSpent(b, b', now, now')
    ensures Opening(a', b', p + out, now')
  {
    SilentKeepsSelect(p, out, a.me, b.me);
  }

  lemma PairFrame(a: Node, a': Node, b: Node, b': Node, p: seq<Wire>, out: seq<Wire>,
                  nowA: Millis, nowA': Millis, nowB: Millis, nowB': Millis)
    requires Pair(a, b, p, nowA, nowB) && Silent(out, a.me, b.me)
    requires SameTowards(a, a', b.me) && SameTowards(b, b', a.me)
    requires KeepsSpent(a, a', nowA, nowA') && KeepsSpent(b, b', nowB, nowB')
    ensures Pair(a', b', p + out, nowA', nowB')
  {
    hide Opening, KeepsSpent, SameTowards;
    OpeningFrame(a, a', b, b', p, out, nowB, nowB');
    OpeningFrame(b, b', a, a', p, out, nowA, nowA');
  }

  lemma CheckedKeepsSpent(n: Node, m: Wire, now: Millis, later: Millis)
    requires now <= later
    ensures KeepsSpent(n, Checked(n, m, later), now, later) && KeepsSpent(n, n, now, later)
  {
    forall x | Spent(n, x, now) ensures Spent(Checked(n, m, later), x, later) && Spent(n, x, later) {
      SpentStays(n, x, now, m, later);
    }
  }

  // ---- What one handler does to a pair ----------------------------------

  predicate Directed(out: seq<Wire>, from: Peer, to: Peer) {
    forall k :: 0 <= k < |out| ==> out[k].from == from && out[k].to == to
  }

  lemma {:induction false} DirectedElsewhere(out: seq<Wire>, from: Peer, to: Peer, kind: MessageKind, u: Peer, v: Peer)
    requires Directed(out, from, to) && (u != from || v != to)
    ensures Select(out, kind, u, v) == []
    ensures Emitted(out, u, v) == []
  {
    if out != [] {
      DirectedElsewhere(out[..|out| - 1], from, to, kind, u, v);
    }
  }

  lemma {:induction false} EnvelopesDirected(me: Peer, peer: Peer, s: ActiveSession, texts: seq<Text>, now: Millis, tok: nat)
    ensures Directed(Envelopes(me, peer, s, texts, now, tok), me, peer)
  {
    if texts != [] {
      EnvelopesDirected(me, peer, s, texts[..|texts| - 1], now, tok);
    }
  }

  lemma EnvelopesSilent(me: Peer, peer: Peer, s: ActiveSession, texts: seq<Text>, now: Millis, tok: nat, x: Peer, y: Peer)
    ensures Silent(Envelopes(me, peer, s, texts, now, tok), x, y)
  {
    SelectEnvelopes(me, peer, s, texts, now, tok, OfferKind, x, y);
    SelectEnvelopes(me, peer, s, texts, now, tok, OfferKind, y, x);
    SelectEnvelopes(me, peer, s, texts, now, tok, AckKind, x, y);
    SelectEnvelopes(me, peer, s, texts, now, tok, AckKind, y, x);
  }

  /** The log after `x` publishes its offer `m` to `y`. */
  lemma OfferInLog(p: seq<Wire>, m: Wire, x: Peer, y: Peer)
    requires m.Offer? && m.from == x && m.to == y && x != y
    ensures var q := p + [m];
            && Select(q, OfferKind, x, y) == Select(p, OfferKind, x, y) + [m]
            && Select(q, OfferKind, y, x) == Select(p, OfferKind, y, x)
            && Select(q, AckKind, x, y) == Select(p, AckKind, x, y)
            && Select(q, AckKind, y, x) == Select(p, AckKind, y, x)
  {
    SelectConcat(p, [m], OfferKind, x, y);
    SelectConcat(p, [m], OfferKind, y, x);
    SelectConcat(p, [m], AckKind, x, y);
    SelectConcat(p, [m], AckKind, y, x);
    SelectOne(m, OfferKind, x, y);
    SelectOne(m, OfferKind, y, x);
    SelectOne(m, AckKind, x, y);
    SelectOne(m, AckKind, y, x);
  }

  lemma OfferKeepsPair(x: Node, y: Node, p: seq<Wire>, now: Millis, nowY: Millis, text: Text)
    requires Pair(x, y, p, now, nowY) && x.me != y.me
    requires y.me !in x.active && y.me !in x.pending
    ensures var e := DispatchOrQueue(x, y.me, text, now, |p|); Pair(e.node, y, p + e.out, now, nowY)
  {
    var m := Offer(x.me, y.me, |p|, PublicKey(|p|), now, |p|);
    assert Select(p, OfferKind, x.me, y.me) == [];
    OfferInLog(p, m, x.me, y.me);
  }

  lemma DispatchKeepsPair(x: Node, y: Node, p: seq<Wire>, now: Millis, nowY: Millis, text: Text)
    requires Pair(x, y, p, now, nowY) && x.me != y.me
    ensures var e := DispatchOrQueue(x, y.me, text, now, |p|); Pair(e.node, y, p + e.out, now, nowY)
  {
    if y.me in x.active {
      EnvelopeKeepsPair(x, y, p, Envelope(x.me, y.me, x.active[y.me], text, now, |p|), now, nowY);
    } else if y.me in x.pending {
      QueueingKeepsPair(x, y, p, now, nowY, text);
    } else {
      OfferKeepsPair(x, y, p, now, nowY, text);
    }
  }

  lemma SelfFrame(n: Node, peer: Peer, now: Millis)
    ensures SameTowards(n, n, peer) && KeepsSpent(n, n, now, now)
  {
  }

  lemma EnvelopeKeepsPair(x: Node, y: Node, p: seq<Wire>, m: Wire, now: Millis, nowY: Millis)
    requires Pair(x, y, p, now, nowY) && m.Data?
    ensures Pair(x, y, p + [m], now, nowY)
  {
    hide Pair, SameTowards, KeepsSpent;
    assert Silent([m], x.me, y.me) by {
      SelectOne(m, OfferKind, x.me, y.me);
      SelectOne(m, OfferKind, y.me, x.me);
      SelectOne(m, AckKind, x.me, y.me);
      SelectOne(m, AckKind, y.me, x.me);
    }
    SelfFrame(x, y.me, now);
    SelfFrame(y, x.me, nowY);
    PairFrame(x, x, y, y, p, [m], now, now, nowY, nowY);
  }

  lemma QueueingKeepsPair(x: Node, y: Node, p: seq<Wire>, now: Millis, nowY: Millis, text: Text)
    requires Pair(x, y, p, now, nowY) && x.me != y.me && y.me !in x.active && y.me in x.pending
    ensures var e := DispatchOrQueue(x, y.me, text, now, |p|); Pair(e.node, y, p + e.out, now, nowY)
  {
    assert p + [] == p;
  }

  lemma UniqueSelected(p: seq<Wire>, m: Wire, kind: MessageKind, from: Peer, to: Peer)
    requires m in p && Between(m, kind, from, to) && |Select(p, kind, from, to)| <= 1
    ensures Select(p, kind, from, to) == [m]
  {
    SelectHas(p, m, kind, from, to);
  }

  /** The effect of accepting `y`'s offer `m`, over the extended log `q`. */
  lemma AcceptedOfferPair(x: Node, x': Node, y: Node, p: seq<Wire>, q: seq<Wire>, m: Wire, ack: Wire,
                          now: Millis, nowY: Millis)
    requires Pair(x, y, p, now, nowY) && x.me != y.me && m.Offer? && ack.Ack? && x'.me == x.me
    requires Select(p, OfferKind, y.me, x.me) == [m] && Select(p, AckKind, x.me, y.me) == []
    requires Select(q, OfferKind, y.me, x.me) == [m] && Select(q, AckKind, x.me, y.me) == [ack]
    requires Select(q, OfferKind, x.me, y.me) == Select(p, OfferKind, x.me, y.me)
    requires Select(q, AckKind, y.me, x.me) == Select(p, AckKind, y.me, x.me)
    requires ack.sid == m.sid
    requires x'.pending == x.pending && x'.queued == x.queued - {y.me}
    requires x'.active == x.active[y.me := ActiveSession(m.sid, DeriveSessionKey(ack.pub.exponent, m.pub, m.sid))]
    requires KeepsSpent(x, x', now, now) && Spent(x', m, now)
    ensures Pair(x', y, q, now, nowY)
  {
    var s := x'.active[y.me];
    assert {ack.pub.exponent, m.pub.exponent} == {m.pub.exponent, ack.pub.exponent};
    assert OpenedBy(q, y.me, x.me, s);
    if x.me in y.active {
      assert OpenedBy(p, x.me, y.me, y.active[x.me]);
    }
  }

  /** A message that only enters the replay memory. */
  lemma CheckedKeepsPair(x: Node, y: Node, p: seq<Wire>, m: Wire, now: Millis, nowY: Millis)
    requires Pair(x, y, p, now, nowY)
    ensures Pair(Checked(x, m, now), y, p, now, nowY)
  {
    hide Pair, KeepsSpent, Remember, PassesReplay;
    CheckedKeepsSpent(x, m, now, now);
    SelfFrame(y, x.me, nowY);
    PairFrame(x, Checked(x, m, now), y, y, p, [], now, now, nowY, nowY);
    assert p + [] == p;
  }

  /** An offer that passes the replay check is the only one, and has not been answered. */
  lemma FirstAcceptance(x: Node, y: Node, p: seq<Wire>, m: Wire, now: Millis, nowY: Millis)
    requires Pair(x, y, p, now, nowY) && m in p && Between(m, OfferKind, y.me, x.me) && PassesReplay(x, m, now)
    ensures Select(p, OfferKind, y.me, x.me) == [m] && Select(p, AckKind, x.me, y.me) == []
  {
    hide PassesReplay, Spent;
    UniqueSelected(p, m, OfferKind, y.me, x.me);
    if |Select(p, AckKind, x.me, y.me)| == 1 {
      SpentIsRefused(x, m, now, now);
    }
  }

  lemma AcceptingKeepsPair(x: Node, y: Node, p: seq<Wire>, m: Wire, now: Millis, nowY: Millis)
    requires Pair(x, y, p, now, nowY) && x.me != y.me && PassesReplay(x, m, now)
    requires m in p && m.Offer? && m.from == y.me && m.to == x.me
    ensures var e := ProcessOffer(x, m, now, |p|); Pair(e.node, y, p + e.out, now, nowY)
  {
    hide Pair, Remember, PassesReplay, Select, KeepsSpent, Spent, Envelopes;
    var e := ProcessOffer(x, m, now, |p|);
    FirstAcceptance(x, y, p, m, now, nowY);
    CheckedKeepsSpent(x, m, now, now);
    AcceptedIsSpent(x, m, now);
    SameMemory(Checked(x, m, now), e.node, x, m, now);
    var ack, s := Ack(x.me, y.me, m.sid, PublicKey(|p|), now, |p|), e.node.active[y.me];
    var tail := Envelopes(x.me, y.me, s, QueueFor(x, y.me), now, |p| + 1);
    AckThenSilent(p, ack, tail, x.me, y.me, s, QueueFor(x, y.me), now);
    AcceptedOfferPair(x, e.node, y, p, p + e.out, m, ack, now, nowY);
  }

  /** What a node has spent depends on its replay memory alone. */
  lemma SameMemory(n: Node, n': Node, before: Node, m: Wire, now: Millis)
    requires n'.seen == n.seen && KeepsSpent(before, n, now, now)
    ensures KeepsSpent(before, n', now, now) && (Spent(n, m, now) <==> Spent(n', m, now))
  {
    forall w | Spent(before, w, now) ensures Spent(n', w, now) {
      assert Spent(n, w, now);
    }
  }

  lemma ReceiveOfferKeepsPair(x: Node, y: Node, p: seq<Wire>, m: Wire, now: Millis, nowY: Millis)
    requires Pair(x, y, p, now, nowY) && x.me != y.me
    requires m in p && m.Offer? && m.from == y.me && m.to == x.me
    ensures var e := ProcessOffer(x, m, now, |p|); Pair(e.node, y, p + e.out, now, nowY)
  {
    hide Pair, Remember, PassesReplay;
    if PassesReplay(x, m, now) {
      AcceptingKeepsPair(x, y, p, m, now, nowY);
    } else {
      CheckedKeepsPair(x, y, p, m, now, nowY);
      assert p + [] == p;
    }
  }

  lemma AckThenSilent(p: seq<Wire>, ack: Wire, tail: seq<Wire>, x: Peer, y: Peer, s: ActiveSession, texts: seq<Text>, now: Millis)
    requires ack.Ack? && ack.from == x && ack.to == y && x != y
    requires tail == Envelopes(x, y, s, texts, now, |p| + 1)
    ensures var q := p + ([ack] + tail);
            && Select(q, OfferKind, x, y) == Select(p, OfferKind, x, y)
            && Select(q, OfferKind, y, x) == Select(p, OfferKind, y, x)
            && Select(q, AckKind, y, x) == Select(p, AckKind, y, x)
            && Select(q, AckKind, x, y) == Select(p, AckKind, x, y) + [ack]
  {
    EnvelopesSilent(x, y, s, texts, now, |p| + 1, x, y);
    assert p + ([ack] + tail) == (p + [ack]) + tail;
    SilentKeepsSelect(p + [ack], tail, x, y);
    SelectConcat(p, [ack], OfferKind, x, y);
    SelectConcat(p, [ack], OfferKind, y, x);
    SelectConcat(p, [ack], AckKind, x, y);
    SelectConcat(p, [ack], AckKind, y, x);
    SelectOne(ack, OfferKind, x, y);
    SelectOne(ack, OfferKind, y, x);
    SelectOne(ack, AckKind, x, y);
    SelectOne(ack, AckKind, y, x);
  }

  /** The effect of completing the negotiation with `y`'s ack `m`. */
  lemma CompletedPair(x: Node, x': Node, y: Node, p: seq<Wire>, q: seq<Wire>, m: Wire, now: Millis, nowY: Millis)
    requires Pair(x, y, p, now, nowY) && x.me != y.me && m.Ack? && x'.me == x.me
    requires Select(p, AckKind, y.me, x.me) == [m] && y.me in x.pending
    requires Select(q, OfferKind, x.me, y.me) == Select(p, OfferKind, x.me, y.me)
    requires Select(q, OfferKind, y.me, x.me) == Select(p, OfferKind, y.me, x.me)
    requires Select(q, AckKind, x.me, y.me) == Select(p, AckKind, x.me, y.me)
    requires Select(q, AckKind, y.me, x.me) == Select(p, AckKind, y.me, x.me)
    requires x'.pending == x.pending - {y.me} && x'.queued == x.queued - {y.me}
    requires x'.active == x.active[y.me := ActiveSession(m.sid, DeriveSessionKey(x.pending[y.me].secret, m.pub, m.sid))]
    requires KeepsSpent(x, x', now, now)
    ensures Pair(x', y, q, now, nowY)
  {
    assert OpenedBy(q, x.me, y.me, x'.active[y.me]);
  }

  lemma CompletingKeepsPair(x: Node, y: Node, p: seq<Wire>, m: Wire, now: Millis, nowY: Millis)
    requires Pair(x, y, p, now, nowY) && x.me != y.me && PassesReplay(x, m, now) && y.me in x.pending
    requires m in p && m.Ack? && m.from == y.me && m.to == x.me
    ensures var e := ProcessAck(x, m, now, |p|); Pair(e.node, y, p + e.out, now, nowY)
  {
    hide Remember, PassesReplay, Select, KeepsSpent, Spent, Envelopes;
    var e := ProcessAck(x, m, now, |p|);
    UniqueSelected(p, m, AckKind, y.me, x.me);
    CheckedKeepsSpent(x, m, now, now);
    SameMemory(Checked(x, m, now), e.node, x, m, now);
    var s := e.node.active[y.me];
    EnvelopesSilent(x.me, y.me, s, QueueFor(x, y.me), now, |p|, x.me, y.me);
    SilentKeepsSelect(p, e.out, x.me, y.me);
    CompletedPair(x, e.node, y, p, p + e.out, m, now, nowY);
  }

  lemma ReceiveAckKeepsPair(x: Node, y: Node, p: seq<Wire>, m: Wire, now: Millis, nowY: Millis)
    requires Pair(x, y, p, now, nowY) && x.me != y.me
    requires m in p && m.Ack? && m.from == y.me && m.to == x.me
    ensures var e := ProcessAck(x, m, now, |p|); Pair(e.node, y, p + e.out, now, nowY)
  {
    hide Pair, Remember, PassesReplay;
    if PassesReplay(x, m, now) && y.me in x.pending {
      CompletingKeepsPair(x, y, p, m, now, nowY);
    } else {
      CheckedKeepsPair(x, y, p, m, now, nowY);
      assert p + [] == p;
    }
  }

  lemma ReceiveKeepsPair(x: Node, y: Node, p: seq<Wire>, m: Wire, now: Millis, nowY: Millis)
    requires Pair(x, y, p, now, nowY) && x.me != y.me && m.from == y.me
    ensures var e := Receive(x, m, m in p, now, |p|); Pair(e.node, y, p + e.out, now, nowY)
  {
    hide Pair, ProcessOffer, ProcessAck, Checked;
    assert p + [] == p;
    if m.to == x.me && m in p {
      match m
      case Offer(_, _, _, _, _, _) => ReceiveOfferKeepsPair(x, y, p, m, now, nowY);
      case Ack(_, _, _, _, _, _) => ReceiveAckKeepsPair(x, y, p, m, now, nowY);
      case Data(_, _, _, _, _, _, _) =>
        CheckedKeepsPair(x, y, p, m, now, nowY);
        InboxKeepsPair(Checked(x, m, now), ProcessData(x, m, now), y, p, now, nowY);
    }
  }

  lemma InboxKeepsPair(x: Node, x': Node, y: Node, p: seq<Wire>, now: Millis, nowY: Millis)
    requires Pair(x, y, p, now, nowY) && x' == x.(inbox := x'.inbox)
    ensures Pair(x', y, p, now, nowY)
  {
  }

  // ---- What one handler does to everyone else ---------------------------

  /** `e` concerns only peer `z`: everything published is for `z`, nothing held
      for another peer changes, and spent messages stay spent. */
  ghost predicate ActsTowards(x: Node, e: Effect, z: Peer, now: Millis) {
    && e.node.me == x.me
    && Directed(e.out, x.me, z)
    && (forall peer :: peer != z ==> SameTowards(x, e.node, peer) && QueueFor(e.node, peer) == QueueFor(x, peer))
    && KeepsSpent(x, e.node, now, now)
  }

  lemma DispatchTouchesOnlyPeer(x: Node, z: Peer, text: Text, now: Millis, tok: nat)
    ensures ActsTowards(x, DispatchOrQueue(x, z, text, now, tok), z, now)
  {
  }

  /** Installing a session concerns only its peer. */
  lemma EstablishTouches(x: Node, z: Peer, s: ActiveSession, now: Millis, tok: nat, peer: Peer)
    requires peer != z
    ensures var e := Establish(x, z, s, now, tok); SameTowards(x, e.node, peer) && QueueFor(e.node, peer) == QueueFor(x, peer)
  {
  }

  lemma EstablishDirected(x: Node, z: Peer, s: ActiveSession, now: Millis, tok: nat)
    ensures var e := Establish(x, z, s, now, tok); Directed(e.out, x.me, z) && e.node.seen == x.seen && e.node.me == x.me
  {
    EnvelopesDirected(x.me, z, s, QueueFor(x, z), now, tok);
  }

  lemma OfferTouches(x: Node, m: Wire, now: Millis, tok: nat, peer: Peer)
    requires peer != m.from && m.Offer?
    ensures var e := ProcessOffer(x, m, now, tok); SameTowards(x, e.node, peer) && QueueFor(e.node, peer) == QueueFor(x, peer)
  {
    hide Remember, PassesReplay, Establish;
    EstablishTouches(Checked(x, m, now), m.from, ActiveSession(m.sid, DeriveSessionKey(tok, m.pub, m.sid)), now, tok + 1, peer);
  }

  lemma AckTouches(x: Node, m: Wire, now: Millis, tok: nat, peer: Peer)
    requires peer != m.from && m.Ack?
    ensures var e := ProcessAck(x, m, now, tok); SameTowards(x, e.node, peer) && QueueFor(e.node, peer) == QueueFor(x, peer)
  {
    hide Remember, PassesReplay, Establish;
    var c := Checked(x, m, now);
    if m.from in x.pending {
      var s := ActiveSession(m.sid, DeriveSessionKey(x.pending[m.from].secret, m.pub, m.sid));
      EstablishTouches(c.(pending := c.pending - {m.from}), m.from, s, now, tok, peer);
    }
  }

  lemma ReceiveTouches(x: Node, m: Wire, verified: bool, now: Millis, tok: nat, peer: Peer)
    requires peer != m.from
    ensures var e := Receive(x, m, verified, now, tok); SameTowards(x, e.node, peer) && QueueFor(e.node, peer) == QueueFor(x, peer)
  {
    hide Remember, PassesReplay, ProcessOffer, ProcessAck, Open;
    if m.Offer? {
      OfferTouches(x, m, now, tok, peer);
    } else if m.Ack? {
      AckTouches(x, m, now, tok, peer);
    }
  }

  lemma ReceiveDirected(x: Node, m: Wire, verified: bool, now: Millis, tok: nat)
    ensures var e := Receive(x, m, verified, now, tok);
            && Directed(e.out, x.me, m.from) && e.node.me == x.me
            && (e.node.seen == x.seen || e.node.seen == Checked(x, m, now).seen)
  {
    hide Remember, PassesReplay, Establish, Open;
    var c := Checked(x, m, now);
    if m.Offer? {
      EstablishDirected(c, m.from, ActiveSession(m.sid, DeriveSessionKey(tok, m.pub, m.sid)), now, tok + 1);
    } else if m.Ack? && m.from in x.pending {
      var s := ActiveSession(m.sid, DeriveSessionKey(x.pending[m.from].secret, m.pub, m.sid));
      EstablishDirected(c.(pending := c.pending - {m.from}), m.from, s, now, tok);
    }
  }

  lemma ReceiveTouchesOnlyPeer(x: Node, m: Wire, verified: bool, now: Millis, tok: nat)
    ensures ActsTowards(x, Receive(x, m, verified, now, tok), m.from, now)
  {
    hide Receive, SameTowards, KeepsSpent, Spent, Directed;
    var e := Receive(x, m, verified, now, tok);
    ReceiveDirected(x, m, verified, now, tok);
    CheckedKeepsSpent(x, m, now, now);
    SameMemory(if e.node.seen == x.seen then x else Checked(x, m, now), e.node, x, m, now);
    forall peer | peer != m.from ensures SameTowards(x, e.node, peer) && QueueFor(e.node, peer) == QueueFor(x, peer) {
      ReceiveTouches(x, m, verified, now, tok, peer);
    }
  }
}
