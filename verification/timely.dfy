// Timestamps and timely delivery. A node's messages bear its clock, so between nodes
// whose clocks agree to within the replay window a message published under a session
// arrives, and a first message brings its session about and arrives after it.

module Timely {
  import opened Prelude
  import opened Replay
  import opened Session
  import opened Network
  import opened Agreement
  import opened SessionTheorems
  import opened Crossing
  import opened Delivery

  // ---- What is published ------------------------------------------------

  /** Stamped `now`; an envelope is marked as a room text exactly when its text is one. */
  predicate Stamped(m: Wire, now: Millis) {
    m.ts == now && (m.Data? ==> (m.roomText <==> m.payload.plain.room.Some?))
  }

  predicate AllStamped(out: seq<Wire>, now: Millis) {
    forall k :: 0 <= k < |out| ==> Stamped(out[k], now)
  }

  lemma {:induction false} EnvelopesStamped(me: Peer, peer: Peer, s: ActiveSession, texts: seq<Text>, now: Millis, tok: nat)
    ensures AllStamped(Envelopes(me, peer, s, texts, now, tok), now)
  {
    if texts != [] {
      EnvelopesStamped(me, peer, s, texts[..|texts| - 1], now, tok);
    }
  }

  lemma {:induction false} DispatchAllStamped(n: Node, peers: seq<Peer>, text: Text, now: Millis, tok: nat)
    ensures AllStamped(DispatchAll(n, peers, text, now, tok).out, now)
    decreases peers
  {
    if peers != [] {
      DispatchAllStamped(n, peers[..|peers| - 1], text, now, tok);
    }
  }

  lemma ReceiveStamped(n: Node, m: Wire, verified: bool, now: Millis, tok: nat)
    ensures AllStamped(Receive(n, m, verified, now, tok).out, now)
  {
    hide Remember, PassesReplay, Envelopes;
    var e := Receive(n, m, verified, now, tok);
    if m.from in e.node.active {
      EnvelopesStamped(n.me, m.from, e.node.active[m.from], QueueFor(n, m.from), now, tok);
      EnvelopesStamped(n.me, m.from, e.node.active[m.from], QueueFor(n, m.from), now, tok + 1);
    }
  }

  lemma SendStamped(n: Node, peers: seq<Peer>, text: Text, now: Millis, tok: nat)
    ensures AllStamped(Send(n, peers, text, now, tok).out, now)
  {
    hide DispatchAll;
    DispatchAllStamped(WithLocalHistory(n, text, now), peers, text, now, tok);
  }

  /** Every message a node's step publishes bears the reading of its clock at that step. */
  lemma PublishedBearsReading(s: System, step: Step)
    requires Enabled(s, step) && !step.Inject?
    ensures var t := Take(s, step);
            s.published <= t.published && AllStamped(t.published[|s.published|..], step.now)
  {
    hide Receive, Send;
    match step
    case SendStep(at, to, text, now) =>
      SendStamped(s.nodes[at], to, text, now, |s.published|);
      assert Take(s, step).published[|s.published|..] == Send(s.nodes[at], to, text, now, |s.published|).out;
    case Deliver(at, m, now) =>
      ReceiveStamped(s.nodes[at], m, m in s.published, now, |s.published|);
      assert Take(s, step).published[|s.published|..] == Receive(s.nodes[at], m, m in s.published, now, |s.published|).out;
    case Inject(_) =>
  }

  // ---- The local history ------------------------------------------------

  /** The texts a node sent itself, as its inbox lists them. */
  function LocalTexts(inbox: seq<InboxEntry>): seq<InboxEntry> {
    if inbox == [] then []
    else LocalTexts(inbox[..|inbox| - 1]) + if inbox[|inbox| - 1].id.LocalStamp? then [inbox[|inbox| - 1]] else []
  }

  /** One entry per send command of the node: its own, already read, with the text and time. */
  function Copies(steps: seq<Step>, at: Peer): seq<InboxEntry>
    decreases |steps|
  {
    if steps == [] then []
    else
      (if steps[0].SendStep? && steps[0].at == at then [InboxEntry(LocalStamp(steps[0].now), at, steps[0].text, false)] else [])
      + Copies(steps[1..], at)
  }

  lemma LocalTextsSnoc(inbox: seq<InboxEntry>, e: InboxEntry)
    ensures LocalTexts(inbox + [e]) == LocalTexts(inbox) + if e.id.LocalStamp? then [e] else []
  {
    assert (inbox + [e])[..|inbox|] == inbox;
  }

  lemma TakeKeepsHistory(s: System, step: Step, at: Peer)
    requires Enabled(s, step) && at in s.nodes && s.nodes[at].me == at
    ensures var t := Take(s, step);
            && at in t.nodes && t.nodes[at].me == at
            && LocalTexts(t.nodes[at].inbox) == LocalTexts(s.nodes[at].inbox) + Copies([step], at)
  {
    hide Receive, DispatchAll, LocalTexts;
    var n, tok := s.nodes[at], |s.published|;
    assert [step][1..] == [];
    match step
    case SendStep(z, to, text, now) =>
      DispatchAllKeepsMemory(WithLocalHistory(n, text, now), to, text, now, tok);
      DispatchAllKeepsName(WithLocalHistory(n, text, now), to, text, now, tok);
      LocalTextsSnoc(n.inbox, InboxEntry(LocalStamp(now), n.me, text, false));
    case Deliver(z, m, now) =>
      ReceiveDirected(n, m, m in s.published, now, tok);
      TakenIsData(n, m, m in s.published, now, tok);
      if m.Data? {
        LocalTextsSnoc(n.inbox, InboxEntry(FromNonce(m.nonce), m.from, m.payload.plain, true));
      }
    case Inject(_) =>
  }

  lemma {:induction false} DispatchAllKeepsName(n: Node, peers: seq<Peer>, text: Text, now: Millis, tok: nat)
    ensures DispatchAll(n, peers, text, now, tok).node.me == n.me
    decreases peers
  {
    if peers != [] {
      DispatchAllKeepsName(n, peers[..|peers| - 1], text, now, tok);
    }
  }

  /** In every run a node's inbox gains exactly one own entry per send command, in order,
      whatever arrives in between. */
  lemma {:induction false} HistoryListsSends(s: System, steps: seq<Step>, at: Peer)
    requires Possible(s, steps) && at in s.nodes && s.nodes[at].me == at
    ensures var t := Run(s, steps);
            at in t.nodes && LocalTexts(t.nodes[at].inbox) == LocalTexts(s.nodes[at].inbox) + Copies(steps, at)
    decreases |steps|
  {
    hide Take, LocalTexts;
    if steps != [] {
      TakeKeepsHistory(s, steps[0], at);
      HistoryListsSends(Take(s, steps[0]), steps[1..], at);
      assert [steps[0]][1..] == [];
    }
  }

  // ---- What a node has not seen -----------------------------------------

  /** A node remembers only messages that were published. */
  ghost predicate SeenPublished(n: Node, p: seq<Wire>) {
    forall k :: k in n.seen ==> exists m :: m in p && ReplayKeyOf(m) == k
  }

  ghost predicate AllSeenPublished(s: System) {
    forall b :: b in s.nodes ==> SeenPublished(s.nodes[b], s.published)
  }

  lemma ReceiveSees(n: Node, m: Wire, verified: bool, now: Millis, tok: nat, k: ReplayKey)
    requires k in Receive(n, m, verified, now, tok).node.seen
    ensures k in n.seen || (verified && k == ReplayKeyOf(m))
  {
    hide Establish, Open, ProcessOffer, ProcessAck;
    ReceiveDirected(n, m, verified, now, tok);
  }

  lemma TakeKeepsSeenPublished(s: System, step: Step)
    requires AllSeenPublished(s) && Enabled(s, step)
    ensures AllSeenPublished(Take(s, step))
  {
    hide Receive, DispatchAll;
    var t := Take(s, step);
    forall b, k | b in t.nodes && k in t.nodes[b].seen ensures exists m :: m in t.published && ReplayKeyOf(m) == k {
      if step.SendStep? && b == step.at {
        DispatchAllKeepsMemory(WithLocalHistory(s.nodes[b], step.text, step.now), step.to, step.text, step.now, |s.published|);
      } else if step.Deliver? && b == step.at {
        ReceiveSees(s.nodes[b], step.m, step.m in s.published, step.now, |s.published|, k);
      }
      if k in s.nodes[b].seen {
        assert SeenPublished(s.nodes[b], s.published);
        var m :| m in s.published && ReplayKeyOf(m) == k;
        assert m in t.published;
      } else {
        assert step.m in t.published && ReplayKeyOf(step.m) == k;
      }
    }
  }

  lemma {:induction false} RunKeepsSeenPublished(s: System, steps: seq<Step>)
    requires AllSeenPublished(s) && Possible(s, steps)
    ensures AllSeenPublished(Run(s, steps))
    decreases |steps|
  {
    hide AllSeenPublished, Take;
    if steps != [] {
      TakeKeepsSeenPublished(s, steps[0]);
      RunKeepsSeenPublished(Take(s, steps[0]), steps[1..]);
    }
  }

  /** A token that has not been used yet is in nobody's replay memory. */
  lemma NewTokenUnseen(s: System, x: Peer, y: Peer, kind: MessageKind)
    requires Reachable(s) && x in s.nodes && y in s.nodes
    ensures ReplayKey(kind, x, |s.published|) !in s.nodes[y].seen
  {
    ReachableInv(s);
    var peers, steps :| Possible(Initial(peers), steps) && Run(Initial(peers), steps) == s;
    RunKeepsSeenPublished(Initial(peers), steps);
    assert SeenPublished(s.nodes[y], s.published);
    forall m | m in s.published && m.from == x ensures m.nonce < |s.published| {
      var i :| 0 <= i < |s.published| && s.published[i] == m;
      assert UsesToken(s.published[i], i);
    }
  }

  /** The message has not been delivered to `y` in these steps. */
  predicate NotYetAt(steps: seq<Step>, y: Peer, m: Wire) {
    forall k :: 0 <= k < |steps| && steps[k].Deliver? && steps[k].at == y ==> steps[k].m != m
  }

  lemma TakeLeavesUnseen(s: System, step: Step, y: Peer, m: Wire)
    requires Inv(s) && Enabled(s, step) && y in s.nodes && m in s.published && m.from in s.nodes
    requires ReplayKeyOf(m) !in s.nodes[y].seen && NotYetAt([step], y, m)
    ensures var t := Take(s, step); y in t.nodes && m in t.published && ReplayKeyOf(m) !in t.nodes[y].seen
  {
    hide Receive, DispatchAll, AllPairs, AllConserved, AllDelivered, Numbered;
    assert [step][0] == step;
    if step.SendStep? && step.at == y {
      DispatchAllKeepsMemory(WithLocalHistory(s.nodes[y], step.text, step.now), step.to, step.text, step.now, |s.published|);
    } else if step.Deliver? && step.at == y {
      var w := step.m;
      if ReplayKeyOf(m) in Take(s, step).nodes[y].seen {
        ReceiveSees(s.nodes[y], w, w in s.published, step.now, |s.published|, ReplayKeyOf(m));
        SameToken(s.published, s.nodes.Keys, m, w);
      }
    }
  }

  lemma {:induction false} RunLeavesUnseen(s: System, steps: seq<Step>, y: Peer, m: Wire)
    requires Inv(s) && Possible(s, steps) && y in s.nodes && m in s.published && m.from in s.nodes
    requires ReplayKeyOf(m) !in s.nodes[y].seen && NotYetAt(steps, y, m)
    ensures var t := Run(s, steps); y in t.nodes && m in t.published && ReplayKeyOf(m) !in t.nodes[y].seen
    decreases |steps|
  {
    hide Inv, Take;
    if steps != [] {
      assert NotYetAt([steps[0]], y, m) && NotYetAt(steps[1..], y, m);
      TakeKeepsInv(s, steps[0]);
      TakeContinues(s, steps[0]);
      TakeLeavesUnseen(s, steps[0], y, m);
      assert m.from in s.nodes.Keys;
      RunLeavesUnseen(Take(s, steps[0]), steps[1..], y, m);
    }
  }

  /** Two clock readings no further apart than the replay window. */
  predicate Close(x: Millis, y: Millis) {
    x <= y + 120_000 && y <= x + 120_000
  }

  lemma UnseenPasses(n: Node, m: Wire, now: Millis)
    requires ReplayKeyOf(m) !in n.seen && Close(m.ts, now)
    ensures PassesReplay(n, m, now)
  {
  }

  // ---- Under a session --------------------------------------------------

  lemma ReachableRun(s: System, steps: seq<Step>)
    requires Reachable(s) && Possible(s, steps)
    ensures Reachable(Run(s, steps))
  {
    var peers, first :| Possible(Initial(peers), first) && Run(Initial(peers), first) == s;
    RunConcat(Initial(peers), first, steps);
  }

  lemma ReachableStep(s: System, step: Step)
    requires Reachable(s) && Enabled(s, step)
    ensures Reachable(Take(s, step))
  {
    hide Reachable, Take;
    Prepend(s, step, []);
    assert [step] + [] == [step];
    ReachableRun(s, [step]);
  }

  /** One text to one peer: at a node with a session an envelope of its own, sealing the text. */
  lemma SentUnderSession(s: System, a: Peer, b: Peer, text: Text, t: Millis)
    requires Enabled(s, SendStep(a, [b], text, t)) && b in s.nodes[a].active && s.nodes[a].me == a
    ensures var u := Take(s, SendStep(a, [b], text, t));
            && |u.published| == |s.published| + 1
            && var m := u.published[|s.published|];
               Between(m, DataKind, a, b) && m.payload.plain == text && m.nonce == |s.published| && m.ts == t
  {
    assert [b][..0] == [];
    assert DispatchAll(WithLocalHistory(s.nodes[a], text, t), [], text, t, |s.published|) == Effect(WithLocalHistory(s.nodes[a], text, t), []);
  }

  /** Delivery, end to end: between two nodes that hold a session and of which one never
      opens, what `a` sends to `b` is in `b`'s inbox, unaltered, as soon as it is first
      delivered, whatever happened in the meantime, provided `b`'s clock is then within the
      replay window of `a`'s at the time of sending. */
  lemma SentEnvelopeArrives(s: System, a: Peer, b: Peer, text: Text, t: Millis, steps: seq<Step>, m: Wire, now: Millis)
    requires Reachable(s) && a in s.nodes && b in s.nodes && a != b
    requires b in s.nodes[a].active && a in s.nodes[b].active && ClockOf(s, a) <= t
    requires m in Take(s, SendStep(a, [b], text, t)).published[|s.published|..]
    requires Possible(Take(s, SendStep(a, [b], text, t)), steps) && NotYetAt(steps, b, m)
    requires var u := Run(Take(s, SendStep(a, [b], text, t)), steps);
             && (NeverOpens(u.published, a, b) || NeverOpens(u.published, b, a))
             && ClockOf(u, b) <= now && Close(t, now)
    ensures var u := Run(Take(s, SendStep(a, [b], text, t)), steps);
            && b in u.nodes
            && Take(u, Deliver(b, m, now)).nodes[b].inbox
            == u.nodes[b].inbox + [InboxEntry(FromNonce(|s.published|), a, text, true)]
  {
    hide Take, Run, NeverOpens, PassesReplay;
    var send := SendStep(a, [b], text, t);
    var v := Take(s, send);
    var u := Run(v, steps);
    ReachableInv(s);
    SentUnderSession(s, a, b, text, t);
    assert m == v.published[|s.published|];
    NewTokenUnseen(s, a, b, DataKind);
    SendKeepsSeen(s, send, b);
    TakeContinues(s, send);
    ReachableStep(s, send);
    ReachableInv(v);
    assert a in s.nodes.Keys && b in s.nodes.Keys;
    RunContinues(v, steps);
    assert a in v.nodes.Keys && b in v.nodes.Keys && a in v.nodes[b].active;
    RunLeavesUnseen(v, steps, b, m);
    ReachableRun(v, steps);
    assert a in u.nodes.Keys;
    UnseenPasses(u.nodes[b], m, now);
    EnvelopeTakenIff(u, a, b, m, now);
  }

  lemma SendKeepsSeen(s: System, step: Step, y: Peer)
    requires Enabled(s, step) && step.SendStep? && y in s.nodes
    ensures y in Take(s, step).nodes && Take(s, step).nodes[y].seen == s.nodes[y].seen
  {
    hide DispatchAll;
    DispatchAllKeepsMemory(WithLocalHistory(s.nodes[step.at], step.text, step.now), step.to, step.text, step.now, |s.published|);
  }
}
