// Who is online in which room: what presence updates, commands and ticks make of it
// (apps/void-chat/src/lib.rs, core/transport/src/node.rs).

module Attendance {
  import opened Prelude
  import opened Sorting
  import opened Rooms
  import opened Membership

  // ---- One room ---------------------------------------------------------

  predicate OnePerPeer(r: Room) {
    AllDifferent(r.members, SamePeer)
  }

  lemma PutMemberElements(members: seq<RoomMember>, m: RoomMember)
    requires AllDifferent(members, SamePeer)
    ensures Elements(PutMember(members, m)) == (set x | x in members && x.peerId != m.peerId) + {m}
  {
    var i, after := FindPeer(members, m.peerId), PutMember(members, m);
    assert after[i] == m;
    forall x | x in members && x.peerId != m.peerId ensures x in after {
      var k :| 0 <= k < |members| && members[k] == x;
      assert after[k] == x;
    }
    forall k | 0 <= k < |after| && k != i ensures after[k] in members && after[k].peerId != m.peerId {
      assert i < |members| ==> !SamePeer(members[if k < i then k else i], members[if k < i then i else k]);
    }
  }

  lemma OnlineOfElements(a: seq<RoomMember>, b: seq<RoomMember>)
    requires Elements(a) == Elements(b)
    ensures OnlinePeers(a) == OnlinePeers(b)
  {
    assert forall m :: m in a <==> m in Elements(a);
    assert forall m :: m in b <==> m in Elements(b);
  }

  lemma RefreshMembers(r: Room)
    ensures Elements(Refresh(r).members) == Elements(r.members) && OnlinePeers(Refresh(r).members) == OnlinePeers(r.members)
    ensures OnePerPeer(r) ==> OnePerPeer(Refresh(r))
  {
    SortElements(r.members, PeerAtMost);
    OnlineOfElements(Refresh(r).members, r.members);
    if OnePerPeer(r) {
      SortAllDifferent(r.members, PeerAtMost, SamePeer);
    }
  }

  /** A presence update leaves one record of the peer, which says what was asked and
      when, and touches no other record. */
  lemma UpsertRecords(r: Room, name: string, peerId: string, joined: bool, now: Millis)
    requires OnePerPeer(r)
    ensures var after := Change(r, UpsertMember(name, peerId, joined), now).members;
            && Elements(after)
            == (set m | m in r.members && m.peerId != peerId) + {RoomMember(peerId, if joined then "ONLINE" else "OFFLINE", now)}
            && OnlinePeers(after) == (if joined then OnlinePeers(r.members) + {peerId} else OnlinePeers(r.members) - {peerId})
  {
    var op := UpsertMember(name, peerId, joined);
    var put, after := Edit(r, op, now).members, Change(r, op, now).members;
    PutMemberElements(r.members, RoomMember(peerId, Presence(joined), now));
    RefreshMembers(Edit(r, op, now));
    assert forall m :: m in after <==> m in Elements(after);
    var m := RoomMember(peerId, if joined then "ONLINE" else "OFFLINE", now);
    assert m in after;
    assert "ONLINE" != "OFFLINE";
  }

  // ---- The rooms state --------------------------------------------------

  ghost predicate Distinct(st: RoomsState) {
    forall i :: 0 <= i < |st.rooms| ==> OnePerPeer(st.rooms[i])
  }

  /** `peer` is recorded online in the room called `name`. */
  ghost predicate OnlineIn(st: RoomsState, name: string, peer: string) {
    var i := FindRoom(st.rooms, name);
    i < |st.rooms| && peer in OnlinePeers(st.rooms[i].members)
  }

  /** What one edit makes of a peer's presence in a room. */
  predicate OnlineAfter(online: bool, op: RoomOp, name: string, peer: string) {
    if op.UpsertMember? && op.room == name && op.peerId == peer then op.joined else online
  }

  lemma {:induction false} FindReplaced(rooms: seq<Room>, i: nat, r: Room, name: string)
    requires i < |rooms| && r.room == rooms[i].room
    ensures FindRoom(rooms[i := r], name) == FindRoom(rooms, name)
    decreases |rooms|
  {
    var n := |rooms| - 1;
    if i < n {
      assert rooms[i := r][..n] == rooms[..n][i := r];
      FindReplaced(rooms[..n], i, r, name);
    } else {
      assert rooms[i := r][..n] == rooms[..n];
    }
  }

  lemma FindAppended(rooms: seq<Room>, r: Room, name: string)
    ensures FindRoom(rooms + [r], name)
         == (if FindRoom(rooms, name) < |rooms| || r.room == name then FindRoom(rooms, name) else |rooms| + 1)
  {
    assert (rooms + [r])[..|rooms|] == rooms;
  }

  /** Creating a missing room puts nobody online. */
  lemma EnsuredPresence(st: RoomsState, name: string, now: Millis, room: string, peer: string)
    requires Distinct(st)
    ensures var t := st.(rooms := WithRoom(st.rooms, name, now));
            Distinct(t) && (OnlineIn(t, room, peer) <==> OnlineIn(st, room, peer))
  {
    hide FindRoom;
    FindAppended(st.rooms, FreshRoom(name, now), room);
    assert FreshRoom(name, now).members == [];
  }

  /** What an edit makes of one room's presences. */
  lemma ChangePresence(r: Room, op: RoomOp, now: Millis, peer: string)
    requires OnePerPeer(r) && !op.SetCurrent? && !op.Merge?
    ensures var c := Change(Refresh(r), op, now);
            && OnePerPeer(c)
            && (peer in OnlinePeers(c.members) <==>
                  if op.UpsertMember? && op.peerId == peer then op.joined else peer in OnlinePeers(r.members))
  {
    hide OnePerPeer, OnlinePeers, Refresh;
    RefreshMembers(r);
    if op.UpsertMember? {
      UpsertRecords(Refresh(r), op.room, op.peerId, op.joined, now);
      UpsertDistinct(Refresh(r), op, now);
    } else {
      SameMembers(Refresh(r), Edit(Refresh(r), op, now));
      RefreshMembers(Edit(Refresh(r), op, now));
    }
  }

  lemma SameMembers(r: Room, q: Room)
    requires q.members == r.members
    ensures OnePerPeer(q) <==> OnePerPeer(r)
  {
  }

  lemma UpsertDistinct(r: Room, op: RoomOp, now: Millis)
    requires OnePerPeer(r) && op.UpsertMember?
    ensures OnePerPeer(Change(r, op, now))
  {
    PutMemberDifferent(r.members, RoomMember(op.peerId, Presence(op.joined), now));
    RefreshMembers(Edit(r, op, now));
  }

  lemma ReplacedPresence(st: RoomsState, i: nat, r: Room, room: string, peer: string)
    requires Distinct(st) && i < |st.rooms| && r.room == st.rooms[i].room && OnePerPeer(r)
    ensures var t := st.(rooms := st.rooms[i := r]);
            && Distinct(t)
            && (OnlineIn(t, room, peer) <==>
                  if FindRoom(st.rooms, room) == i then peer in OnlinePeers(r.members) else OnlineIn(st, room, peer))
  {
    hide FindRoom, OnlinePeers;
    FindReplaced(st.rooms, i, r, room);
  }

  /** Only a presence update of this peer in this room moves its presence there. */
  lemma ApplyPresence(st: RoomsState, op: RoomOp, now: Millis, room: string, peer: string)
    requires Distinct(st) && !op.Merge?
    ensures Distinct(Apply(st, op, now))
    ensures OnlineIn(Apply(st, op, now), room, peer) <==> OnlineAfter(OnlineIn(st, room, peer), op, room, peer)
  {
    hide FindRoom, OnlinePeers, OnePerPeer, Change, Refresh;
    if !op.SetCurrent? {
      var name := RoomOf(op);
      EnsuredPresence(st, name, now, room, peer);
      var t := st.(rooms := WithRoom(st.rooms, name, now));
      var i := FindRoom(t.rooms, name);
      var c := Change(Refresh(t.rooms[i]), op, now);
      ChangePresence(t.rooms[i], op, now, peer);
      ChangeHeader(t.rooms[i], op, now);
      ReplacedPresence(t, i, c, room, peer);
    }
  }

  function OnlineAfterAll(online: bool, ops: seq<RoomOp>, name: string, peer: string): bool {
    if ops == [] then online else OnlineAfter(OnlineAfterAll(online, ops[..|ops| - 1], name, peer), ops[|ops| - 1], name, peer)
  }

  lemma {:induction false} RunOpsPresence(st: RoomsState, ops: seq<RoomOp>, now: Millis, room: string, peer: string)
    requires Distinct(st) && forall k :: 0 <= k < |ops| ==> !ops[k].Merge?
    ensures Distinct(RunOps(st, ops, now))
    ensures OnlineIn(RunOps(st, ops, now), room, peer) <==> OnlineAfterAll(OnlineIn(st, room, peer), ops, room, peer)
    decreases ops
  {
    hide Apply, OnlineIn, OnlineAfter, Distinct;
    if ops != [] {
      RunOpsPresence(st, ops[..|ops| - 1], now, room, peer);
      ApplyPresence(RunOps(st, ops[..|ops| - 1], now), ops[|ops| - 1], now, room, peer);
    }
  }

  // ---- Commands and ticks -----------------------------------------------

  lemma {:induction false} OnlineAfterFew(online: bool, ops: seq<RoomOp>, name: string, peer: string)
    requires |ops| <= 3
    ensures |ops| == 0 ==> OnlineAfterAll(online, ops, name, peer) == online
    ensures |ops| == 1 ==> OnlineAfterAll(online, ops, name, peer) == OnlineAfter(online, ops[0], name, peer)
    ensures |ops| == 2 ==>
              OnlineAfterAll(online, ops, name, peer) == OnlineAfter(OnlineAfter(online, ops[0], name, peer), ops[1], name, peer)
    ensures |ops| == 3 ==>
              var two := OnlineAfter(OnlineAfter(online, ops[0], name, peer), ops[1], name, peer);
              OnlineAfterAll(online, ops, name, peer) == OnlineAfter(two, ops[2], name, peer)
    decreases ops
  {
    hide OnlineAfter;
    if ops != [] {
      OnlineAfterFew(online, ops[..|ops| - 1], name, peer);
    }
  }

  /** After a join of a room not yet joined the local peer is online in it, after a leave
      it is not; no other room's presence moves. */
  lemma EditedPresence(s: State, d: Drained, room: string)
    requires Distinct(s.rooms)
    ensures Distinct(Edited(s, d).rooms)
    ensures OnlineIn(Edited(s, d).rooms, room, s.me) <==>
            if d.command == Join(room) && room !in s.joined then true
            else d.command != Leave(room) && OnlineIn(s.rooms, room, s.me)
  {
    hide OnlineAfterAll, RunOps, OnlineIn, Distinct;
    RunOpsPresence(s.rooms, OpsOf(s, d), d.now, room, s.me);
    OnlineAfterFew(OnlineIn(s.rooms, room, s.me), OpsOf(s, d), room, s.me);
  }

  /** The local peer is online wherever it has joined. */
  ghost predicate Attends(s: State) {
    forall room :: room in s.joined ==> OnlineIn(s.rooms, room, s.me)
  }

  lemma {:induction false} UpsertsOnline(online: bool, me: string, names: seq<string>, n: nat, room: string)
    requires n <= |names| && (room in names ==> online)
    ensures OnlineAfterAll(online, Upserts(me, names)[..n], room, me) == online
    decreases n
  {
    if n > 0 {
      UpsertsOnline(online, me, names, n - 1, room);
      assert Upserts(me, names)[..n][..n - 1] == Upserts(me, names)[..n - 1];
    }
  }

  lemma {:induction false} AscendingElements(names: set<string>)
    ensures forall x :: x in Ascending(names) <==> x in names
    decreases names
  {
    if names != {} {
      AscendingElements(names - {Ascending(names)[0]});
    }
  }

  /** The room sync confirms presences that are already there. */
  lemma SyncPresence(s: State, now: Millis, room: string)
    requires Distinct(s.rooms) && Attends(s)
    ensures Distinct(Sync(s, now).rooms)
    ensures OnlineIn(Sync(s, now).rooms, room, s.me) <==> OnlineIn(s.rooms, room, s.me)
  {
    hide OnlineAfterAll, RunOps, OnlineIn, Distinct, Ascending;
    var names := Ascending(s.joined);
    var ops := Upserts(s.me, names);
    AscendingElements(s.joined);
    RunOpsPresence(s.rooms, ops, now, room, s.me);
    UpsertsOnline(OnlineIn(s.rooms, room, s.me), s.me, names, |names|, room);
    assert ops[..|names|] == ops;
  }

  lemma ProcessPresence(s: State, d: Drained, room: string)
    requires Distinct(s.rooms) && Attends(s)
    ensures var t := Process(s, d);
            && Distinct(t.rooms) && Attends(t) && t.me == s.me
            && (OnlineIn(t.rooms, room, s.me) <==> d.command == Join(room) || (d.command != Leave(room) && OnlineIn(s.rooms, room, s.me)))
  {
    hide RunOps, OnlineIn, Distinct;
    var e := Edited(s, d);
    EditedPresence(s, d, room);
    forall r | r in e.joined ensures OnlineIn(e.rooms, r, s.me) {
      EditedPresence(s, d, r);
    }
    SyncPresence(e, d.now, room);
    forall r | r in e.joined ensures OnlineIn(Sync(e, d.now).rooms, r, s.me) {
      SyncPresence(e, d.now, r);
    }
  }

  lemma {:induction false} CommandsPresence(s: State, batch: seq<Drained>, room: string)
    requires Distinct(s.rooms) && Attends(s)
    ensures var t := ProcessAll(s, batch);
            && Distinct(t.rooms) && Attends(t) && t.me == s.me
            && (OnlineIn(t.rooms, room, s.me) <==> Decided(LastDecision(batch, room), OnlineIn(s.rooms, room, s.me)))
  {
    hide Process, OnlineIn, Distinct, Attends;
    if batch != [] {
      var n := |batch| - 1;
      CommandsPresence(s, batch[..n], room);
      ProcessPresence(ProcessAll(s, batch[..n]), batch[n], room);
    }
  }

  lemma {:induction false} PerformingKeepsRooms(s: State, actions: seq<Action>)
    ensures PerformAll(s, actions).rooms == s.rooms && PerformAll(s, actions).me == s.me
  {
    if actions != [] {
      PerformingKeepsRooms(s, actions[..|actions| - 1]);
    }
  }

  /** After a tick the local peer is online in a room exactly as its last Join or Leave in
      the batch says, and without one as before; it is online wherever it has joined. */
  lemma TickSetsPresence(s: State, batch: seq<Drained>, now: Millis, room: string)
    requires InAgreement(s) && Distinct(s.rooms) && Attends(s)
    ensures var t := Tick(s, batch, now);
            && InAgreement(t) && Distinct(t.rooms) && Attends(t)
            && (OnlineIn(t.rooms, room, s.me) <==> Decided(LastDecision(batch, room), OnlineIn(s.rooms, room, s.me)))
  {
    hide InAgreement, PerformAll, ProcessAll, Sync, OnlineIn, Distinct;
    TickAgrees(s, batch, now);
    forall r ensures OnlineIn(Tick(s, batch, now).rooms, r, s.me)
                <==> Decided(LastDecision(batch, r), OnlineIn(s.rooms, r, s.me))
    {
      TickPresence(s, batch, now, r);
    }
    TickPresence(s, batch, now, room);
  }

  lemma TickPresence(s: State, batch: seq<Drained>, now: Millis, room: string)
    requires Distinct(s.rooms) && Attends(s)
    ensures var t := Tick(s, batch, now);
            && t.me == s.me && Distinct(t.rooms)
            && (OnlineIn(t.rooms, room, s.me) <==> Decided(LastDecision(batch, room), OnlineIn(s.rooms, room, s.me)))
  {
    hide PerformAll, ProcessAll, OnlineIn, Distinct;
    var p := ProcessAll(s, batch);
    CommandsPresence(s, batch, room);
    SyncPresence(p, now, room);
    PerformingKeepsRooms(Sync(p, now), AllActions(s, batch) + SyncActions(p, now));
  }

  // ---- Who gets a room message ------------------------------------------

  /** `room_recipients`: the other members of the room who are online, in order. */
  function RoomRecipients(st: RoomsState, me: string, room: string): seq<string> {
    var i := FindRoom(st.rooms, room);
    if i < |st.rooms| then OthersOnline(st.rooms[i].members, me) else []
  }

  function OthersOnline(members: seq<RoomMember>, me: string): seq<string> {
    if members == [] then []
    else
      var last := members[|members| - 1];
      OthersOnline(members[..|members| - 1], me)
      + if last.peerId != me && last.presence == "ONLINE" then [last.peerId] else []
  }

  predicate NoRepeats(peers: seq<string>) {
    forall i, j :: 0 <= i < j < |peers| ==> peers[i] != peers[j]
  }

  lemma {:induction false} OthersOnlineAre(members: seq<RoomMember>, me: string)
    ensures Elements(OthersOnline(members, me)) == OnlinePeers(members) - {me}
    ensures AllDifferent(members, SamePeer) ==> NoRepeats(OthersOnline(members, me))
  {
    hide AllDifferent, OnlinePeers, NoRepeats;
    if members == [] {
      NobodyOnline();
      NobodyTwice();
    } else {
      var init, last := members[..|members| - 1], members[|members| - 1];
      assert members == init + [last];
      OthersOnlineAre(init, me);
      OnlinePeersSnoc(init, last);
      var more := if last.peerId != me && last.presence == "ONLINE" then [last.peerId] else [];
      ElementsOfConcat(OthersOnline(init, me), more);
      assert Elements(more) == if more == [] then {} else {last.peerId};
      if AllDifferent(members, SamePeer) {
        LastPeerIsNew(init, last);
        OnceMore(OthersOnline(init, me), last.peerId);
      }
    }
  }

  lemma NobodyTwice()
    ensures NoRepeats([])
  {
  }

  lemma OnceMore(peers: seq<string>, peer: string)
    requires NoRepeats(peers) && peer !in Elements(peers)
    ensures NoRepeats(peers + [peer]) && NoRepeats(peers + [])
  {
    assert forall k :: 0 <= k < |peers| ==> peers[k] in Elements(peers);
  }

  /** A room message goes, once each, to exactly the other peers online in the room. */
  lemma RecipientsAreOthersOnline(st: RoomsState, me: string, room: string, peer: string)
    requires Distinct(st)
    ensures peer in RoomRecipients(st, me, room) <==> peer != me && OnlineIn(st, room, peer)
    ensures NoRepeats(RoomRecipients(st, me, room))
  {
    hide OnlinePeers, FindRoom;
    var i := FindRoom(st.rooms, room);
    if i < |st.rooms| {
      OthersOnlineAre(st.rooms[i].members, me);
      assert OnePerPeer(st.rooms[i]);
      assert peer in RoomRecipients(st, me, room) <==> peer in Elements(OthersOnline(st.rooms[i].members, me));
    }
  }
}
