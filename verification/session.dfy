// Encrypted session protocol (core/transport/src/node.rs). Each handler is a
// function from a node's state to its new state and the messages it publishes;
// the class `ChatRuntime` performs the same handlers in place.
//
// Cryptography is symbolic. Diffie-Hellman is a symmetric function of the two
// secrets (section 6.1 of RFC 7748), the key hash is injective, and a sealed
// payload opens only under the key that sealed it.

module Session {
  import opened Prelude
  import opened Replay
  import Decimal

  /** A peer id is base58 text, which has no colon. */
  type Peer = s: string | ':' !in s witness ""

  // ---- Cryptography -----------------------------------------------------

  datatype PublicKey = PublicKey(exponent: nat)

  datatype SessionKey = SessionKey(shared: set<nat>, sid: nat)

  /** The shared secret is the unordered pair of exponents. */
  function DiffieHellman(secret: nat, remote: PublicKey): set<nat> {
    {secret, remote.exponent}
  }

  function DeriveSessionKey(secret: nat, remote: PublicKey, sid: nat): SessionKey {
    SessionKey(DiffieHellman(secret, remote), sid)
  }

  datatype Text = Text(room: Option<string>, body: string)

  datatype Sealed = Sealed(key: SessionKey, plain: Text)

  function Open(key: SessionKey, payload: Sealed): Option<Text> {
    if payload.key == key then Some(payload.plain) else None
  }

  // ---- Messages and node state ------------------------------------------

  datatype Wire =
    | Offer(from: Peer, to: Peer, sid: nat, pub: PublicKey, ts: Millis, nonce: nat)
    | Ack(from: Peer, to: Peer, sid: nat, pub: PublicKey, ts: Millis, nonce: nat)
    | Data(from: Peer, to: Peer, sid: nat, payload: Sealed, roomText: bool, ts: Millis, nonce: nat)

  datatype MessageKind = OfferKind | AckKind | DataKind

  function KindOf(m: Wire): MessageKind {
    match m
    case Offer(_, _, _, _, _, _) => OfferKind
    case Ack(_, _, _, _, _, _) => AckKind
    case Data(_, _, _, _, _, _, _) => DataKind
  }

  datatype ReplayKey = ReplayKey(kind: MessageKind, sender: Peer, nonce: nat)

  function ReplayKeyOf(m: Wire): ReplayKey {
    ReplayKey(KindOf(m), m.from, m.nonce)
  }

  datatype PendingSession = PendingSession(sid: nat, secret: nat)

  datatype ActiveSession = ActiveSession(sid: nat, key: SessionKey)

  /** A received message carries its envelope's nonce, a local one a clock stamp. */
  datatype MessageId = FromNonce(nonce: nat) | LocalStamp(at: Millis)

  datatype InboxEntry = InboxEntry(id: MessageId, from: Peer, text: Text, unread: bool)

  datatype Node = Node(
    me: Peer,
    pending: map<Peer, PendingSession>,
    active: map<Peer, ActiveSession>,
    queued: map<Peer, seq<Text>>,
    seen: map<ReplayKey, Millis>,
    inbox: seq<InboxEntry>)

  /** A handler's new state and the messages it publishes, in order. */
  datatype Effect = Effect(node: Node, out: seq<Wire>)

  // ---- Handlers ---------------------------------------------------------
  // `tok` is the first unused random token; the message published as the k-th
  // of a handler draws its nonce, and for offers and acks its secret and session
  // id, from token `tok + k`.

  function Envelope(me: Peer, peer: Peer, s: ActiveSession, text: Text, now: Millis, nonce: nat): Wire {
    Data(me, peer, s.sid, Sealed(s.key, text), text.room.Some?, now, nonce)
  }

  function Envelopes(me: Peer, peer: Peer, s: ActiveSession, texts: seq<Text>, now: Millis, tok: nat): (out: seq<Wire>)
    ensures |out| == |texts|
  {
    if texts == [] then []
    else
      var n := |texts| - 1;
      Envelopes(me, peer, s, texts[..n], now, tok) + [Envelope(me, peer, s, texts[n], now, tok + n)]
  }

  function QueueFor(n: Node, peer: Peer): seq<Text> {
    if peer in n.queued then n.queued[peer] else []
  }

  function DispatchOrQueue(n: Node, peer: Peer, text: Text, now: Millis, tok: nat): Effect {
    if peer in n.active then
      Effect(n, [Envelope(n.me, peer, n.active[peer], text, now, tok)])
    else
      var queued := n.(queued := n.queued[peer := QueueFor(n, peer) + [text]]);
      if peer in n.pending then Effect(queued, [])
      else
        Effect(queued.(pending := n.pending[peer := PendingSession(tok, tok)]),
               [Offer(n.me, peer, tok, PublicKey(tok), now, tok)])
  }

  /** Installs a session and publishes everything queued for the peer. */
  function Establish(n: Node, peer: Peer, s: ActiveSession, now: Millis, tok: nat): Effect {
    Effect(n.(active := n.active[peer := s], queued := n.queued - {peer}),
           Envelopes(n.me, peer, s, QueueFor(n, peer), now, tok))
  }

  function Checked(n: Node, m: Wire, now: Millis): Node {
    n.(seen := Remember(n.seen, ReplayKeyOf(m), m.ts, now, REPLAY_WINDOW_MS))
  }

  predicate PassesReplay(n: Node, m: Wire, now: Millis) {
    Decide(n.seen, ReplayKeyOf(m), m.ts, now, REPLAY_WINDOW_MS).Accepted?
  }

  function ProcessOffer(n: Node, m: Wire, now: Millis, tok: nat): Effect
    requires m.Offer?
  {
    if !PassesReplay(n, m, now) then Effect(Checked(n, m, now), [])
    else
      var s := ActiveSession(m.sid, DeriveSessionKey(tok, m.pub, m.sid));
      var e := Establish(Checked(n, m, now), m.from, s, now, tok + 1);
      Effect(e.node, [Ack(n.me, m.from, m.sid, PublicKey(tok), now, tok)] + e.out)
  }

  function ProcessAck(n: Node, m: Wire, now: Millis, tok: nat): Effect
    requires m.Ack?
  {
    var c := Checked(n, m, now);
    if !PassesReplay(n, m, now) || m.from !in n.pending then Effect(c, [])
    else
      var p := n.pending[m.from];
      var taken := c.(pending := c.pending - {m.from});
      if p.sid != m.sid then Effect(taken, [])
      else Establish(taken, m.from, ActiveSession(m.sid, DeriveSessionKey(p.secret, m.pub, m.sid)), now, tok)
  }

  function ProcessData(n: Node, m: Wire, now: Millis): Node
    requires m.Data?
  {
    var c := Checked(n, m, now);
    if !PassesReplay(n, m, now) || m.from !in n.active || n.active[m.from].sid != m.sid then c
    else
      match Open(n.active[m.from].key, m.payload)
      case None => c
      case Some(text) => c.(inbox := c.inbox + [InboxEntry(FromNonce(m.nonce), m.from, text, true)])
  }

  /** An inbound message; `verified` is the outcome of the signature check. */
  function Receive(n: Node, m: Wire, verified: bool, now: Millis, tok: nat): Effect {
    if m.to != n.me || !verified then Effect(n, [])
    else
      match m
      case Offer(_, _, _, _, _, _) => ProcessOffer(n, m, now, tok)
      case Ack(_, _, _, _, _, _) => ProcessAck(n, m, now, tok)
      case Data(_, _, _, _, _, _, _) => Effect(ProcessData(n, m, now), [])
  }

  function WithLocalHistory(n: Node, text: Text, now: Millis): Node {
    n.(inbox := n.inbox + [InboxEntry(LocalStamp(now), n.me, text, false)])
  }

  /** Dispatches one text to each recipient in turn. */
  function DispatchAll(n: Node, peers: seq<Peer>, text: Text, now: Millis, tok: nat): Effect {
    if peers == [] then Effect(n, [])
    else
      var k := |peers| - 1;
      var e := DispatchAll(n, peers[..k], text, now, tok);
      var last := DispatchOrQueue(e.node, peers[k], text, now, tok + |e.out|);
      Effect(last.node, e.out + last.out)
  }

  lemma NobodyToDispatch(n: Node, peers: seq<Peer>, text: Text, now: Millis, tok: nat)
    ensures DispatchAll(n, peers[..0], text, now, tok) == Effect(n, [])
  {
  }

  lemma DispatchOneMore(n: Node, peers: seq<Peer>, k: nat, text: Text, now: Millis, tok: nat)
    requires k < |peers|
    ensures var e := DispatchAll(n, peers[..k], text, now, tok);
            var last := DispatchOrQueue(e.node, peers[k], text, now, tok + |e.out|);
            DispatchAll(n, peers[..k + 1], text, now, tok) == Effect(last.node, e.out + last.out)
  {
    hide DispatchOrQueue;
    assert peers[..k + 1][..k] == peers[..k];
  }

  /** A send command: a copy to the local history, then one dispatch per recipient
      (the peer of a direct message, the online members of a room). */
  function Send(n: Node, peers: seq<Peer>, text: Text, now: Millis, tok: nat): Effect {
    DispatchAll(WithLocalHistory(n, text, now), peers, text, now, tok)
  }

  // ---- Printed replay keys ----------------------------------------------

  function KindText(kind: MessageKind): string {
    match kind
    case OfferKind => "offer"
    case AckKind => "ack"
    case DataKind => "message"
  }

  /** The scope of the replay check, `"{kind}:{sender}"`. */
  function Scope(k: ReplayKey): string {
    KindText(k.kind) + ":" + k.sender
  }

  function NonceText(k: ReplayKey): string {
    Decimal.Digits(k.nonce)
  }

  function KeyText(k: ReplayKey): string {
    ScopedKey(KindText(k.kind), k.sender, NonceText(k))
  }

  lemma KeyTextInjective(j: ReplayKey, k: ReplayKey)
    requires KeyText(j) == KeyText(k)
    ensures j == k
  {
    ScopedKeysInjective(KindText(j.kind), j.sender, NonceText(j), KindText(k.kind), k.sender, NonceText(k));
    Decimal.DigitsInjective(j.nonce, k.nonce);
  }

  /** `printed` is `seen` with its keys written out. */
  ghost predicate Prints(printed: map<string, Millis>, seen: map<ReplayKey, Millis>) {
    && (forall k :: k in seen ==> KeyText(k) in printed && printed[KeyText(k)] == seen[k])
    && (forall t :: t in printed ==> exists k :: k in seen && KeyText(k) == t)
  }

  /** The memory keyed by text decides and remembers as the one keyed by message does. */
  lemma PrintedDecides(printed: map<string, Millis>, seen: map<ReplayKey, Millis>, k: ReplayKey, ts: Millis, now: Millis,
                       window: Millis)
    requires Prints(printed, seen)
    ensures Decide(printed, KeyText(k), ts, now, window) == Decide(seen, k, ts, now, window)
    ensures Prints(Remember(printed, KeyText(k), ts, now, window), Remember(seen, k, ts, now, window))
  {
    hide KeyText;
    var lower := Lower(now, window);
    var p, q := Prune(printed, lower), Prune(seen, lower);
    forall t | t in p ensures exists j :: j in q && KeyText(j) == t {
      var j :| j in seen && KeyText(j) == t;
      assert j in q;
    }
    if KeyText(k) in p {
      var j :| j in q && KeyText(j) == KeyText(k);
      KeyTextInjective(j, k);
    }
    if Decide(seen, k, ts, now, window).Accepted? {
      var p', q' := p[KeyText(k) := ts], q[k := ts];
      forall j | j in q' ensures KeyText(j) in p' && p'[KeyText(j)] == q'[j] {
        if KeyText(j) == KeyText(k) {
          KeyTextInjective(j, k);
        }
      }
      forall t | t in p' ensures exists j :: j in q' && KeyText(j) == t {
        if t != KeyText(k) {
          var j :| j in q && KeyText(j) == t;
          assert j in q';
        } else {
          assert k in q';
        }
      }
    }
  }

  // ---- The handlers in place --------------------------------------------

  class ChatRuntime {
    const localPeerId: Peer
    var pendingSessions: map<Peer, PendingSession>
    var activeSessions: map<Peer, ActiveSession>
    var pendingMessages: map<Peer, seq<Text>>
    const replay: ReplayProtector
    var inbox: seq<InboxEntry>
    ghost var seen: map<ReplayKey, Millis>

    /** The protector's memory is the remembered messages, with printed keys. */
    ghost predicate Valid()
      reads this`seen, replay
    {
      replay.windowMs == REPLAY_WINDOW_MS && Prints(replay.seen, seen)
    }

    ghost function Value(): Node
      reads this
    {
      Node(localPeerId, pendingSessions, activeSessions, pendingMessages, seen, inbox)
    }

    constructor (me: Peer)
      ensures Valid() && fresh(replay)
      ensures Value() == Node(me, map[], map[], map[], map[], [])
    {
      localPeerId := me;
      pendingSessions, activeSessions, pendingMessages, inbox := map[], map[], map[], [];
      seen := map[];
      replay := new ReplayProtector(REPLAY_WINDOW_MS);
    }

    /** The protector, asked by scope and nonce, answers for the message itself. */
    method CheckAndRecord(m: Wire, now: Millis) returns (ok: bool)
      requires Valid()
      modifies this`seen, replay
      ensures Valid()
      ensures ok == PassesReplay(old(Value()), m, now)
      ensures Value() == Checked(old(Value()), m, now)
    {
      var key := ReplayKeyOf(m);
      PrintedDecides(replay.seen, seen, key, m.ts, now, REPLAY_WINDOW_MS);
      var verdict := replay.CheckAndRecord(Scope(key), NonceText(key), m.ts, now);
      ok := verdict.Accepted?;
      seen := Remember(seen, key, m.ts, now, REPLAY_WINDOW_MS);
    }

    method BuildDirectMessages(peer: Peer, texts: seq<Text>, now: Millis, tok: nat) returns (actions: seq<Wire>)
      requires peer in activeSessions
      ensures actions == Envelopes(localPeerId, peer, activeSessions[peer], texts, now, tok)
    {
      actions := [];
      for k := 0 to |texts|
        invariant actions == Envelopes(localPeerId, peer, activeSessions[peer], texts[..k], now, tok)
      {
        actions := actions + [Envelope(localPeerId, peer, activeSessions[peer], texts[k], now, tok + k)];
        assert texts[..k + 1][..k] == texts[..k];
      }
      assert texts[..|texts|] == texts;
    }

    /** Inserts the session, then empties the peer's queue into messages. */
    method EstablishAndFlush(peer: Peer, s: ActiveSession, now: Millis, tok: nat) returns (actions: seq<Wire>)
      modifies this`activeSessions, this`pendingMessages
      ensures Effect(Value(), actions) == Establish(old(Value()), peer, s, now, tok)
    {
      activeSessions := activeSessions[peer := s];
      actions := [];
      if peer in pendingMessages {
        var messages := pendingMessages[peer];
        pendingMessages := pendingMessages - {peer};
        actions := BuildDirectMessages(peer, messages, now, tok);
      } else {
        assert pendingMessages - {peer} == pendingMessages;
      }
    }

    method DispatchOrQueueOutbound(peer: Peer, text: Text, now: Millis, tok: nat) returns (actions: seq<Wire>)
      modifies this`pendingMessages, this`pendingSessions
      ensures Effect(Value(), actions) == DispatchOrQueue(old(Value()), peer, text, now, tok)
    {
      if peer in activeSessions {
        return [Envelope(localPeerId, peer, activeSessions[peer], text, now, tok)];
      }
      var queue := if peer in pendingMessages then pendingMessages[peer] else [];
      pendingMessages := pendingMessages[peer := queue + [text]];
      if peer in pendingSessions {
        return [];
      }
      pendingSessions := pendingSessions[peer := PendingSession(tok, tok)];
      return [Offer(localPeerId, peer, tok, PublicKey(tok), now, tok)];
    }

    method ProcessSessionOffer(m: Wire, now: Millis, tok: nat) returns (actions: seq<Wire>)
      requires Valid()
      requires m.Offer?
      modifies this, replay
      ensures Valid()
      ensures Effect(Value(), actions) == ProcessOffer(old(Value()), m, now, tok)
    {
      var ok := CheckAndRecord(m, now);
      if !ok {
        return [];
      }
      var s := ActiveSession(m.sid, DeriveSessionKey(tok, m.pub, m.sid));
      var flushed := EstablishAndFlush(m.from, s, now, tok + 1);
      actions := [Ack(localPeerId, m.from, m.sid, PublicKey(tok), now, tok)] + flushed;
    }

    method ProcessSessionAck(m: Wire, now: Millis, tok: nat) returns (actions: seq<Wire>)
      requires Valid()
      requires m.Ack?
      modifies this, replay
      ensures Valid()
      ensures Effect(Value(), actions) == ProcessAck(old(Value()), m, now, tok)
    {
      var ok := CheckAndRecord(m, now);
      if !ok || m.from !in pendingSessions {
        return [];
      }
      var p := pendingSessions[m.from];
      pendingSessions := pendingSessions - {m.from};
      if p.sid != m.sid {
        return [];
      }
      var s := ActiveSession(m.sid, DeriveSessionKey(p.secret, m.pub, m.sid));
      actions := EstablishAndFlush(m.from, s, now, tok);
    }

    method ProcessDirectMessage(m: Wire, now: Millis)
      requires Valid()
      requires m.Data?
      modifies this, replay
      ensures Valid()
      ensures Value() == ProcessData(old(Value()), m, now)
    {
      var ok := CheckAndRecord(m, now);
      if !ok || m.from !in activeSessions || activeSessions[m.from].sid != m.sid {
        return;
      }
      var plain := Open(activeSessions[m.from].key, m.payload);
      if plain.Some? {
        inbox := inbox + [InboxEntry(FromNonce(m.nonce), m.from, plain.value, true)];
      }
    }

    method ProcessSendCommand(peers: seq<Peer>, text: Text, now: Millis, tok: nat) returns (actions: seq<Wire>)
      requires Valid()
      modifies this`inbox, this`pendingMessages, this`pendingSessions
      ensures Valid()
      ensures Effect(Value(), actions) == Send(old(Value()), peers, text, now, tok)
    {
      hide DispatchOrQueue, DispatchAll, Prints;
      inbox := inbox + [InboxEntry(LocalStamp(now), localPeerId, text, false)];
      ghost var start := Value();
      actions := [];
      NobodyToDispatch(start, peers, text, now, tok);
      for k := 0 to |peers|
        invariant Effect(Value(), actions) == DispatchAll(start, peers[..k], text, now, tok)
      {
        DispatchOneMore(start, peers, k, text, now, tok);
        var more := DispatchOrQueueOutbound(peers[k], text, now, tok + |actions|);
        actions := actions + more;
      }
      assert peers[..|peers|] == peers;
    }
  }
}
