// Replicated chat rooms (apps/void-chat/src/lib.rs). `Apply` gives the value each
// operation leaves behind; the class `ChatRooms` performs the same operations in
// place, loop by loop, and is proved equal to it.

module Rooms {
  import opened Prelude
  import opened Sorting

  const ROOM_EVENT_HISTORY_LIMIT: nat := 48

  datatype RoomMember = RoomMember(peerId: string, presence: string, lastSeen: Millis)

  datatype RoomEvent = RoomEvent(eventId: string, eventType: string, peerId: string, body: Option<string>, timestamp: Millis)

  datatype Room = Room(
    room: string,
    joined: bool,
    members: seq<RoomMember>,
    roomId: string,
    roomName: string,
    activeMembers: nat,
    history: seq<RoomEvent>,
    lastChanged: Millis)

  datatype RoomsState = RoomsState(rooms: seq<Room>, currentRoom: Option<string>, syncRevision: nat)

  datatype RoomOp =
    | UpsertMember(room: string, peerId: string, joined: bool)
    | SetLocalJoined(room: string, joined: bool)
    | SetCurrent(current: Option<string>)
    | Record(room: string, eventType: string, peerId: string, body: Option<string>, eventId: string)
    | Merge(remote: Room)

  // ---- Orders -----------------------------------------------------------

  predicate PeerAtMost(a: RoomMember, b: RoomMember) {
    a.peerId == b.peerId || Precedes(a.peerId, b.peerId)
  }

  predicate SamePeer(a: RoomMember, b: RoomMember) {
    a.peerId == b.peerId
  }

  predicate NotLater(a: RoomEvent, b: RoomEvent) {
    a.timestamp <= b.timestamp
  }

  predicate SameEventId(a: RoomEvent, b: RoomEvent) {
    a.eventId == b.eventId
  }

  lemma PeerOrderTotal()
    ensures TotalOrder(PeerAtMost)
  {
    forall x: RoomMember, y ensures PeerAtMost(x, y) || PeerAtMost(y, x) {
      PrecedesTotal(x.peerId, y.peerId);
    }
    forall x: RoomMember, y, z | PeerAtMost(x, y) && PeerAtMost(y, z) ensures PeerAtMost(x, z) {
      if Precedes(x.peerId, y.peerId) && Precedes(y.peerId, z.peerId) {
        PrecedesTransitive(x.peerId, y.peerId, z.peerId);
      }
    }
  }

  // ---- Room values ------------------------------------------------------

  function CountOnline(members: seq<RoomMember>): nat {
    if members == [] then 0
    else CountOnline(members[..|members| - 1]) + if members[|members| - 1].presence == "ONLINE" then 1 else 0
  }

  function Newest(history: seq<RoomEvent>): seq<RoomEvent> {
    if |history| > ROOM_EVENT_HISTORY_LIMIT then history[|history| - ROOM_EVENT_HISTORY_LIMIT..] else history
  }

  function OrElse(text: string, fallback: string): string {
    if text == "" then fallback else text
  }

  function Refresh(r: Room): Room {
    r.(roomId := OrElse(r.roomId, r.room),
       roomName := OrElse(r.roomName, r.room),
       activeMembers := CountOnline(r.members),
       members := StableSort(r.members, PeerAtMost),
       history := Newest(StableSort(r.history, NotLater)))
  }

  function Presence(joined: bool): string {
    if joined then "ONLINE" else "OFFLINE"
  }

  function FindPeer(members: seq<RoomMember>, peerId: string): (i: nat)
    ensures i <= |members|
    ensures i < |members| ==> members[i].peerId == peerId
    ensures forall j :: 0 <= j < i ==> members[j].peerId != peerId
  {
    if members == [] then 0
    else
      var i := FindPeer(members[..|members| - 1], peerId);
      if i < |members| - 1 || members[|members| - 1].peerId == peerId then i else |members|
  }

  function PutMember(members: seq<RoomMember>, m: RoomMember): seq<RoomMember> {
    var i := FindPeer(members, m.peerId);
    if i < |members| then members[i := m] else members + [m]
  }

  function MergeMember(members: seq<RoomMember>, m: RoomMember): seq<RoomMember> {
    var i := FindPeer(members, m.peerId);
    if i < |members| && m.lastSeen < members[i].lastSeen then members else PutMember(members, m)
  }

  function MergeMembers(members: seq<RoomMember>, remote: seq<RoomMember>): seq<RoomMember> {
    if remote == [] then members
    else MergeMember(MergeMembers(members, remote[..|remote| - 1]), remote[|remote| - 1])
  }

  predicate HasEvent(history: seq<RoomEvent>, eventId: string) {
    exists i :: 0 <= i < |history| && history[i].eventId == eventId
  }

  function MergeEvent(history: seq<RoomEvent>, e: RoomEvent): seq<RoomEvent> {
    if HasEvent(history, e.eventId) then history else history + [e]
  }

  function MergeEvents(history: seq<RoomEvent>, remote: seq<RoomEvent>): seq<RoomEvent> {
    if remote == [] then history
    else MergeEvent(MergeEvents(history, remote[..|remote| - 1]), remote[|remote| - 1])
  }

  /** How an operation edits its (already ensured) room, before the refresh. */
  function Edit(r: Room, op: RoomOp, now: Millis): Room
    requires !op.SetCurrent?
  {
    match op
    case UpsertMember(_, peerId, joined) =>
      r.(members := PutMember(r.members, RoomMember(peerId, Presence(joined), now)), lastChanged := now)
    case SetLocalJoined(_, joined) =>
      r.(joined := joined, lastChanged := now)
    case Record(_, eventType, peerId, body, eventId) =>
      r.(history := Recorded(r.history, RoomEvent(eventId, eventType, peerId, body, now)), lastChanged := now)
    case Merge(remote) =>
      r.(members := MergeMembers(r.members, remote.members),
         history := MergeEvents(r.history, remote.history),
         roomId := OrElse(r.roomId, remote.roomId),
         roomName := OrElse(r.roomName, remote.roomName),
         lastChanged := if r.lastChanged < remote.lastChanged then remote.lastChanged else r.lastChanged)
  }

  function Recorded(history: seq<RoomEvent>, e: RoomEvent): seq<RoomEvent> {
    Newest(StableSort(history + [e], NotLater))
  }

  function Change(r: Room, op: RoomOp, now: Millis): Room
    requires !op.SetCurrent?
  {
    Refresh(Edit(r, op, now))
  }

  // ---- The whole state --------------------------------------------------

  function RoomOf(op: RoomOp): string
    requires !op.SetCurrent?
  {
    if op.Merge? then op.remote.room else op.room
  }

  function FindRoom(rooms: seq<Room>, name: string): (i: nat)
    ensures i <= |rooms|
    ensures i < |rooms| ==> rooms[i].room == name
    ensures forall j :: 0 <= j < i ==> rooms[j].room != name
  {
    if rooms == [] then 0
    else
      var i := FindRoom(rooms[..|rooms| - 1], name);
      if i < |rooms| - 1 || rooms[|rooms| - 1].room == name then i else |rooms|
  }

  function FirstJoined(rooms: seq<Room>): Option<string> {
    if rooms == [] then None
    else if rooms[0].joined then Some(rooms[0].room)
    else FirstJoined(rooms[1..])
  }

  function FreshRoom(name: string, now: Millis): Room {
    Room(name, false, [], name, name, 0, [], now)
  }

  function WithRoom(rooms: seq<Room>, name: string, now: Millis): (rs: seq<Room>)
    ensures FindRoom(rs, name) < |rs|
  {
    if FindRoom(rooms, name) < |rooms| then rooms else rooms + [FreshRoom(name, now)]
  }

  function NextCurrent(st: RoomsState, rooms: seq<Room>, op: RoomOp): Option<string> {
    match op
    case SetLocalJoined(name, true) => Some(name)
    case SetLocalJoined(name, false) => if st.currentRoom == Some(name) then FirstJoined(rooms) else st.currentRoom
    case SetCurrent(current) => current
    case _ => st.currentRoom
  }

  /** Saturating increment of the `u64` revision. */
  function Bump(revision: nat): nat {
    if revision >= U64_MAX then U64_MAX else revision + 1
  }

  function ApplyToRooms(rooms: seq<Room>, op: RoomOp, now: Millis): seq<Room> {
    if op.SetCurrent? then rooms
    else
      var present := WithRoom(rooms, RoomOf(op), now);
      var i := FindRoom(present, RoomOf(op));
      present[i := Change(Refresh(present[i]), op, now)]
  }

  function Apply(st: RoomsState, op: RoomOp, now: Millis): RoomsState {
    var rooms := ApplyToRooms(st.rooms, op, now);
    RoomsState(rooms, NextCurrent(st, rooms, op), Bump(st.syncRevision))
  }

  // ---- The same operations in place -------------------------------------

  class ChatRooms {
    var rooms: seq<Room>
    var currentRoom: Option<string>
    var syncRevision: nat

    function Value(): RoomsState
      reads this
    {
      RoomsState(rooms, currentRoom, syncRevision)
    }

    constructor ()
      ensures Value() == RoomsState([], None, 0)
    {
      rooms, currentRoom, syncRevision := [], None, 0;
    }

    method RefreshRoomSnapshot(i: nat)
      requires i < |rooms|
      modifies this`rooms
      ensures rooms == old(rooms)[i := Refresh(old(rooms)[i])]
    {
      var r := rooms[i];
      if r.roomId == "" {
        r := r.(roomId := r.room);
      }
      if r.roomName == "" {
        r := r.(roomName := r.room);
      }
      r := r.(activeMembers := CountOnline(r.members));
      r := r.(members := StableSort(r.members, PeerAtMost));
      r := r.(history := StableSort(r.history, NotLater));
      if |r.history| > ROOM_EVENT_HISTORY_LIMIT {
        var keepFrom := |r.history| - ROOM_EVENT_HISTORY_LIMIT;
        r := r.(history := r.history[keepFrom..]);
      }
      rooms := rooms[i := r];
    }

    /** Returns the index of the room, creating it when it is missing. */
    method EnsureRoomSnapshot(name: string, now: Millis) returns (i: nat)
      modifies this`rooms
      ensures i == FindRoom(WithRoom(old(rooms), name, now), name) && i < |rooms|
      ensures rooms == WithRoom(old(rooms), name, now)[i := Refresh(WithRoom(old(rooms), name, now)[i])]
    {
      if FindRoom(rooms, name) == |rooms| {
        rooms := rooms + [FreshRoom(name, now)];
      }
      i := FindRoom(rooms, name);
      RefreshRoomSnapshot(i);
    }

    /** Writes an edited room back, refreshed, and counts the change. */
    method Commit(i: nat, edited: Room, ghost before: seq<Room>, ghost op: RoomOp, ghost now: Millis)
      requires !op.SetCurrent?
      requires i < |rooms| && i == FindRoom(WithRoom(before, RoomOf(op), now), RoomOf(op))
      requires rooms == WithRoom(before, RoomOf(op), now)[i := Refresh(WithRoom(before, RoomOf(op), now)[i])]
      requires edited == Edit(rooms[i], op, now)
      modifies this`rooms, this`syncRevision
      ensures rooms == ApplyToRooms(before, op, now)
      ensures syncRevision == Bump(old(syncRevision))
    {
      rooms := rooms[i := edited];
      RefreshRoomSnapshot(i);
      syncRevision := Bump(syncRevision);
    }

    method UpsertRoomMember(name: string, peerId: string, joined: bool, now: Millis)
      modifies this
      ensures Value() == Apply(old(Value()), UpsertMember(name, peerId, joined), now)
    {
      var i := EnsureRoomSnapshot(name, now);
      var members := SetPresence(rooms[i].members, peerId, joined, now);
      Commit(i, rooms[i].(members := members, lastChanged := now), old(rooms), UpsertMember(name, peerId, joined), now);
    }

    static method SetPresence(members: seq<RoomMember>, peerId: string, joined: bool, now: Millis) returns (r: seq<RoomMember>)
      ensures r == PutMember(members, RoomMember(peerId, Presence(joined), now))
    {
      var k := FindPeer(members, peerId);
      if k < |members| {
        r := members[k := members[k].(presence := Presence(joined), lastSeen := now)];
      } else {
        r := members + [RoomMember(peerId, Presence(joined), now)];
      }
    }

    method SetLocalRoomJoined(name: string, joined: bool, now: Millis)
      modifies this
      ensures Value() == Apply(old(Value()), SetLocalJoined(name, joined), now)
    {
      var i := EnsureRoomSnapshot(name, now);
      Commit(i, rooms[i].(joined := joined, lastChanged := now), old(rooms), SetLocalJoined(name, joined), now);
      if joined {
        currentRoom := Some(name);
      } else if currentRoom == Some(name) {
        currentRoom := FirstJoined(rooms);
      }
    }

    method SetCurrentRoom(current: Option<string>)
      modifies this
      ensures forall now :: Value() == Apply(old(Value()), SetCurrent(current), now)
    {
      currentRoom := current;
      syncRevision := Bump(syncRevision);
    }

    method RecordRoomEvent(name: string, eventType: string, peerId: string, body: Option<string>, eventId: string, now: Millis)
      modifies this
      ensures Value() == Apply(old(Value()), Record(name, eventType, peerId, body, eventId), now)
    {
      var i := EnsureRoomSnapshot(name, now);
      var history := PushEvent(rooms[i].history, RoomEvent(eventId, eventType, peerId, body, now));
      Commit(i, rooms[i].(history := history, lastChanged := now),
        old(rooms), Record(name, eventType, peerId, body, eventId), now);
    }

    static method PushEvent(history: seq<RoomEvent>, e: RoomEvent) returns (r: seq<RoomEvent>)
      ensures r == Recorded(history, e)
    {
      r := StableSort(history + [e], NotLater);
      if |r| > ROOM_EVENT_HISTORY_LIMIT {
        r := r[|r| - ROOM_EVENT_HISTORY_LIMIT..];
      }
    }

    method MergeRoomSnapshot(remote: Room, now: Millis)
      modifies this
      ensures Value() == Apply(old(Value()), Merge(remote), now)
    {
      var i := EnsureRoomSnapshot(remote.room, now);
      var base := rooms[i];
      var members := MergeRemoteMembers(base.members, remote.members);
      var history := MergeRemoteEvents(base.history, remote.history);
      Commit(i, base.(
        members := members,
        history := history,
        roomId := OrElse(base.roomId, remote.roomId),
        roomName := OrElse(base.roomName, remote.roomName),
        lastChanged := if base.lastChanged < remote.lastChanged then remote.lastChanged else base.lastChanged),
        old(rooms), Merge(remote), now);
    }

    static method MergeRemoteMembers(base: seq<RoomMember>, remote: seq<RoomMember>) returns (members: seq<RoomMember>)
      ensures members == MergeMembers(base, remote)
    {
      members := base;
      for k := 0 to |remote|
        invariant members == MergeMembers(base, remote[..k])
      {
        var j := FindPeer(members, remote[k].peerId);
        if j < |members| {
          if remote[k].lastSeen >= members[j].lastSeen {
            members := members[j := remote[k]];
          }
        } else {
          members := members + [remote[k]];
        }
        assert remote[..k + 1][..k] == remote[..k];
      }
      assert remote[..|remote|] == remote;
    }

    static method MergeRemoteEvents(base: seq<RoomEvent>, remote: seq<RoomEvent>) returns (history: seq<RoomEvent>)
      ensures history == MergeEvents(base, remote)
    {
      history := base;
      for k := 0 to |remote|
        invariant history == MergeEvents(base, remote[..k])
      {
        if !HasEvent(history, remote[k].eventId) {
          history := history + [remote[k]];
        }
        assert remote[..k + 1][..k] == remote[..k];
      }
      assert remote[..|remote|] == remote;
    }
  }

  // ---- The representation invariant -------------------------------------

  ghost predicate ValidRoom(r: Room) {
    && Sorted(r.members, PeerAtMost)
    && AllDifferent(r.members, SamePeer)
    && Sorted(r.history, NotLater)
    && AllDifferent(r.history, SameEventId)
    && |r.history| <= ROOM_EVENT_HISTORY_LIMIT
    && r.activeMembers == CountOnline(r.members)
  }

  predicate SameRoom(a: Room, b: Room) {
    a.room == b.room
  }

  ghost predicate Valid(st: RoomsState) {
    && AllDifferent(st.rooms, SameRoom)
    && forall i :: 0 <= i < |st.rooms| ==> ValidRoom(st.rooms[i])
  }

  /** Event ids are drawn at random: a recorded id is new to its room. */
  ghost predicate FreshId(st: RoomsState, op: RoomOp) {
    op.Record? ==> forall i :: 0 <= i < |st.rooms| && st.rooms[i].room == op.room ==> !HasEvent(st.rooms[i].history, op.eventId)
  }

  lemma {:induction false} OnlineOfInsert(members: seq<RoomMember>, m: RoomMember)
    ensures CountOnline(Insert(members, m, PeerAtMost)) == CountOnline(members) + CountOnline([m])
  {
    if members == [] || PeerAtMost(members[|members| - 1], m) {
      assert (members + [m])[..|members|] == members;
    } else {
      var init, last := members[..|members| - 1], members[|members| - 1];
      OnlineOfInsert(init, m);
      var r := Insert(init, m, PeerAtMost);
      assert (r + [last])[..|r|] == r;
    }
  }

  lemma {:induction false} OnlineOfSort(members: seq<RoomMember>)
    ensures CountOnline(StableSort(members, PeerAtMost)) == CountOnline(members)
  {
    if members != [] {
      OnlineOfSort(members[..|members| - 1]);
      OnlineOfInsert(StableSort(members[..|members| - 1], PeerAtMost), members[|members| - 1]);
    }
  }

  ghost function OnlinePeers(members: seq<RoomMember>): set<string> {
    set m | m in members && m.presence == "ONLINE" :: m.peerId
  }

  lemma OnlinePeersSnoc(init: seq<RoomMember>, last: RoomMember)
    ensures OnlinePeers(init + [last]) == OnlinePeers(init) + if last.presence == "ONLINE" then {last.peerId} else {}
  {
    assert forall m :: m in init + [last] <==> m in init || m == last;
  }

  lemma NobodyOnline()
    ensures OnlinePeers([]) == {}
  {
  }

  lemma LastPeerIsNew(init: seq<RoomMember>, last: RoomMember)
    requires AllDifferent(init + [last], SamePeer)
    ensures AllDifferent(init, SamePeer) && last.peerId !in OnlinePeers(init)
  {
    var members := init + [last];
    forall i, j | 0 <= i < j < |init| ensures !SamePeer(init[i], init[j]) {
      assert !SamePeer(members[i], members[j]);
    }
    forall k | 0 <= k < |init| ensures init[k].peerId != last.peerId {
      assert !SamePeer(members[k], members[|init|]);
    }
  }

  /** With one record per peer, `activeMembers` is the number of distinct peers online. */
  lemma {:induction false} CountOnlineIsCardinality(members: seq<RoomMember>)
    requires AllDifferent(members, SamePeer)
    ensures CountOnline(members) == |OnlinePeers(members)|
  {
    hide AllDifferent, OnlinePeers;
    if members == [] {
      NobodyOnline();
    } else {
      var init, last := members[..|members| - 1], members[|members| - 1];
      assert members == init + [last];
      LastPeerIsNew(init, last);
      CountOnlineIsCardinality(init);
      OnlinePeersSnoc(init, last);
    }
  }

  /** Refreshing restores everything except uniqueness, which it keeps. */
  lemma RefreshValid(r: Room)
    requires AllDifferent(r.members, SamePeer) && AllDifferent(r.history, SameEventId)
    ensures ValidRoom(Refresh(r))
  {
    PeerOrderTotal();
    SortSorted(r.members, PeerAtMost);
    SortAllDifferent(r.members, PeerAtMost, SamePeer);
    OnlineOfSort(r.members);
    SortSorted(r.history, NotLater);
    SortAllDifferent(r.history, NotLater, SameEventId);
  }

  lemma PutMemberDifferent(members: seq<RoomMember>, m: RoomMember)
    requires AllDifferent(members, SamePeer)
    ensures AllDifferent(PutMember(members, m), SamePeer)
  {
  }

  lemma {:induction false} MergeMembersDifferent(members: seq<RoomMember>, remote: seq<RoomMember>)
    requires AllDifferent(members, SamePeer)
    ensures AllDifferent(MergeMembers(members, remote), SamePeer)
  {
    if remote != [] {
      MergeMembersDifferent(members, remote[..|remote| - 1]);
      PutMemberDifferent(MergeMembers(members, remote[..|remote| - 1]), remote[|remote| - 1]);
    }
  }

  lemma {:induction false} MergeEventsDifferent(history: seq<RoomEvent>, remote: seq<RoomEvent>)
    requires AllDifferent(history, SameEventId)
    ensures AllDifferent(MergeEvents(history, remote), SameEventId)
  {
    if remote != [] {
      MergeEventsDifferent(history, remote[..|remote| - 1]);
    }
  }

  lemma ChangeKeepsValid(r: Room, op: RoomOp, now: Millis)
    requires ValidRoom(r) && !op.SetCurrent?
    requires op.Record? ==> !HasEvent(r.history, op.eventId)
    ensures ValidRoom(Change(r, op, now)) && Change(r, op, now).room == r.room
  {
    match op
    case UpsertMember(_, peerId, joined) =>
      var m := RoomMember(peerId, Presence(joined), now);
      PutMemberDifferent(r.members, m);
      RefreshValid(Edit(r, op, now));
    case SetLocalJoined(_, joined) =>
      RefreshValid(Edit(r, op, now));
    case Record(_, eventType, peerId, body, eventId) =>
      var pushed := r.history + [RoomEvent(eventId, eventType, peerId, body, now)];
      SortAllDifferent(pushed, NotLater, SameEventId);
      RefreshValid(Edit(r, op, now));
    case Merge(remote) =>
      MergeMembersDifferent(r.members, remote.members);
      MergeEventsDifferent(r.history, remote.history);
      RefreshValid(Edit(r, op, now));
  }

  /** On a valid room, refreshing only fills in missing labels. */
  lemma RefreshIsIdentity(r: Room)
    requires ValidRoom(r)
    ensures Refresh(r) == r.(roomId := OrElse(r.roomId, r.room), roomName := OrElse(r.roomName, r.room))
  {
    SortOfSorted(r.members, PeerAtMost);
    SortOfSorted(r.history, NotLater);
  }

  lemma ReplaceKeepsValid(rooms: seq<Room>, i: nat, r: Room)
    requires i < |rooms| && AllDifferent(rooms, SameRoom)
    requires forall j :: 0 <= j < |rooms| ==> ValidRoom(rooms[j])
    requires ValidRoom(r) && r.room == rooms[i].room
    ensures AllDifferent(rooms[i := r], SameRoom)
    ensures var after := rooms[i := r]; forall j :: 0 <= j < |after| ==> ValidRoom(after[j])
  {
  }

  lemma FreshRoomValid(name: string, now: Millis)
    ensures ValidRoom(FreshRoom(name, now))
  {
  }

  /** Ensuring a room keeps names distinct and rooms valid. */
  lemma WithRoomValid(st: RoomsState, name: string, now: Millis)
    requires Valid(st)
    ensures AllDifferent(WithRoom(st.rooms, name, now), SameRoom)
    ensures var present := WithRoom(st.rooms, name, now); forall j :: 0 <= j < |present| ==> ValidRoom(present[j])
  {
    hide ValidRoom;
    FreshRoomValid(name, now);
  }

  lemma ApplyKeepsValid(st: RoomsState, op: RoomOp, now: Millis)
    requires Valid(st) && FreshId(st, op)
    ensures Valid(Apply(st, op, now))
  {
    hide ValidRoom, Refresh, Edit, AllDifferent, FindRoom;
    if !op.SetCurrent? {
      var present := WithRoom(st.rooms, RoomOf(op), now);
      var i := FindRoom(present, RoomOf(op));
      WithRoomValid(st, RoomOf(op), now);
      RefreshedIsFresh(st, op, now);
      ChangeKeepsValid(Refresh(present[i]), op, now);
      ReplaceKeepsValid(present, i, Change(Refresh(present[i]), op, now));
    }
  }

  /** The ensured room, refreshed, is valid and does not know the recorded event yet. */
  lemma RefreshedIsFresh(st: RoomsState, op: RoomOp, now: Millis)
    requires Valid(st) && FreshId(st, op) && !op.SetCurrent?
    ensures var present := WithRoom(st.rooms, RoomOf(op), now);
            var r := present[FindRoom(present, RoomOf(op))];
            && ValidRoom(Refresh(r)) && Refresh(r).room == r.room
            && (op.Record? ==> !HasEvent(Refresh(r).history, op.eventId))
  {
    hide ValidRoom, Refresh;
    var present := WithRoom(st.rooms, RoomOf(op), now);
    var r := present[FindRoom(present, RoomOf(op))];
    WithRoomValid(st, RoomOf(op), now);
    RefreshIsIdentity(r);
    RefreshedValid(r);
  }

  lemma RefreshedValid(r: Room)
    requires ValidRoom(r)
    ensures ValidRoom(Refresh(r))
  {
    hide Refresh;
    RefreshIsIdentity(r);
  }

  datatype TimedOp = TimedOp(op: RoomOp, now: Millis)

  function Run(st: RoomsState, ops: seq<TimedOp>): RoomsState {
    if ops == [] then st
    else Apply(Run(st, ops[..|ops| - 1]), ops[|ops| - 1].op, ops[|ops| - 1].now)
  }

  ghost predicate FreshRun(st: RoomsState, ops: seq<TimedOp>) {
    forall n :: 0 <= n < |ops| ==> FreshId(Run(st, ops[..n]), ops[n].op)
  }

  /** Every run of room operations and merges of arbitrary remote snapshots
      keeps the representation invariant. */
  lemma {:induction false} RunKeepsValid(st: RoomsState, ops: seq<TimedOp>)
    requires Valid(st) && FreshRun(st, ops)
    ensures Valid(Run(st, ops))
  {
    if ops != [] {
      var init := ops[..|ops| - 1];
      forall n | 0 <= n < |init| ensures FreshId(Run(st, init[..n]), init[n].op) {
        assert init[..n] == ops[..n];
      }
      RunKeepsValid(st, init);
      ApplyKeepsValid(Run(st, init), ops[|ops| - 1].op, ops[|ops| - 1].now);
    }
  }

  /** A member of the room, seen at `since` or later. */
  ghost predicate SeenSince(members: seq<RoomMember>, peerId: string, since: Millis) {
    exists m :: m in members && m.peerId == peerId && since <= m.lastSeen
  }

  lemma {:induction false} MergeMembersKeeps(members: seq<RoomMember>, remote: seq<RoomMember>, peerId: string, since: Millis)
    requires SeenSince(members, peerId, since)
    ensures SeenSince(MergeMembers(members, remote), peerId, since)
  {
    if remote != [] {
      var init, r := remote[..|remote| - 1], remote[|remote| - 1];
      MergeMembersKeeps(members, init, peerId, since);
      var before, after := MergeMembers(members, init), MergeMembers(members, remote);
      var m :| m in before && m.peerId == peerId && since <= m.lastSeen;
      var k :| 0 <= k < |before| && before[k] == m;
      assert after[k] in after;
    }
  }

  /** A merge removes no member and lowers no last-seen time. */
  lemma MergeLosesNoMember(r: Room, remote: Room, now: Millis, m: RoomMember)
    requires m in r.members
    ensures SeenSince(Change(r, Merge(remote), now).members, m.peerId, m.lastSeen)
  {
    assert SeenSince(r.members, m.peerId, m.lastSeen);
    MergeMembersKeeps(r.members, remote.members, m.peerId, m.lastSeen);
    var merged := MergeMembers(r.members, remote.members);
    SortElements(merged, PeerAtMost);
    var m' :| m' in merged && m'.peerId == m.peerId && m.lastSeen <= m'.lastSeen;
    assert m' in Elements(StableSort(merged, PeerAtMost));
  }
}
