// What single room operations leave behind, field by field: which room is edited or
// created, the current room, the history, the labels, the times and the revision
// (apps/void-chat/src/lib.rs).

module RoomEffects {
  import opened Prelude
  import opened Sorting
  import opened Rooms
  import opened Membership
  import opened Attendance

  // ---- Which room -------------------------------------------------------

  /** An operation edits the room it names, which it creates at the end when it is
      missing, and no other. */
  lemma EditsOneRoom(st: RoomsState, op: RoomOp, now: Millis)
    requires !op.SetCurrent?
    ensures var i, after := FindRoom(st.rooms, RoomOf(op)), Apply(st, op, now).rooms;
            && FindRoom(after, RoomOf(op)) == i
            && |after| == (if i < |st.rooms| then |st.rooms| else |st.rooms| + 1)
            && (forall j :: 0 <= j < |st.rooms| && j != i ==> after[j] == st.rooms[j])
            && after[i] == Change(Refresh(if i < |st.rooms| then st.rooms[i] else FreshRoom(RoomOf(op), now)), op, now)
  {
    hide FindRoom, Refresh, Change;
    var name := RoomOf(op);
    var present := WithRoom(st.rooms, name, now);
    FindAppended(st.rooms, FreshRoom(name, now), name);
    var i := FindRoom(present, name);
    ChangeHeader(present[i], op, now);
    FindReplaced(present, i, Change(Refresh(present[i]), op, now), name);
  }

  /** A room comes into being under its name and labels, joined only by joining, with
      nobody in it but the member who is recorded and nothing in its history but the event. */
  lemma FirstEditCreates(name: string, op: RoomOp, now: Millis)
    requires !op.SetCurrent? && !op.Merge? && RoomOf(op) == name
    ensures var r := Change(Refresh(FreshRoom(name, now)), op, now);
            && r.room == name && r.roomId == name && r.roomName == name && r.lastChanged == now
            && r.joined == (op.SetLocalJoined? && op.joined)
            && r.members == (if op.UpsertMember? then [RoomMember(op.peerId, if op.joined then "ONLINE" else "OFFLINE", now)] else [])
            && r.history == (if op.Record? then [RoomEvent(op.eventId, op.eventType, op.peerId, op.body, now)] else [])
            && r.activeMembers == (if op.UpsertMember? && op.joined then 1 else 0)
  {
    var f := FreshRoom(name, now);
    NothingToSort();
    assert Refresh(f) == f;
    var e := Edit(f, op, now);
    SortOfSorted(e.members, PeerAtMost);
    if op.Record? {
      SortOfSorted([RoomEvent(op.eventId, op.eventType, op.peerId, op.body, now)], NotLater);
      assert [] + [RoomEvent(op.eventId, op.eventType, op.peerId, op.body, now)] == e.history;
    }
    SortOfSorted(e.history, NotLater);
  }

  lemma NothingToSort()
    ensures StableSort<RoomMember>([], PeerAtMost) == [] && StableSort<RoomEvent>([], NotLater) == []
  {
  }

  /** A merge into a missing room takes its name for the labels and the later of both times. */
  lemma FirstMergeCreates(remote: Room, now: Millis)
    ensures var r := Change(Refresh(FreshRoom(remote.room, now)), Merge(remote), now);
            && r.room == remote.room && !r.joined && r.lastChanged == (if now < remote.lastChanged then remote.lastChanged else now)
            && (remote.room != "" ==> r.roomId == remote.room && r.roomName == remote.room)
  {
  }

  /** Labels stick: once set no operation changes them, and an empty one becomes the name. */
  lemma LabelsStick(r: Room, op: RoomOp, now: Millis)
    requires !op.SetCurrent? && r.room != ""
    ensures var c := Change(Refresh(r), op, now);
            && c.roomId == (if r.roomId == "" then r.room else r.roomId)
            && c.roomName == (if r.roomName == "" then r.room else r.roomName)
  {
  }

  /** Local edits are dated now; a merge takes the later of both times. */
  lemma EditsAreDated(r: Room, op: RoomOp, now: Millis)
    requires !op.SetCurrent?
    ensures var t := Change(Refresh(r), op, now).lastChanged;
            if op.Merge? then r.lastChanged <= t && op.remote.lastChanged <= t && t in {r.lastChanged, op.remote.lastChanged}
            else t == now
  {
  }

  // ---- The revision and the current room --------------------------------

  /** The revision counts the operations, and stops at the largest 64-bit number. */
  lemma {:induction false} RevisionCounts(st: RoomsState, ops: seq<TimedOp>)
    requires st.syncRevision <= 0xFFFF_FFFF_FFFF_FFFF
    ensures var n := st.syncRevision + |ops|;
            Run(st, ops).syncRevision == (if n <= 0xFFFF_FFFF_FFFF_FFFF then n else 0xFFFF_FFFF_FFFF_FFFF)
    decreases ops
  {
    hide ApplyToRooms;
    if ops != [] {
      RevisionCounts(st, ops[..|ops| - 1]);
    }
  }

  /** `x` is the first room that is joined, if any is. */
  predicate FirstToBeJoined(rooms: seq<Room>, x: Option<string>) {
    match x
    case None => forall j :: 0 <= j < |rooms| ==> !rooms[j].joined
    case Some(name) =>
      exists i :: 0 <= i < |rooms| && rooms[i].joined && rooms[i].room == name && forall j :: 0 <= j < i ==> !rooms[j].joined
  }

  lemma {:induction false} FirstJoinedIs(rooms: seq<Room>)
    ensures FirstToBeJoined(rooms, FirstJoined(rooms))
    decreases rooms
  {
    if rooms != [] && !rooms[0].joined {
      FirstJoinedIs(rooms[1..]);
      match FirstJoined(rooms[1..]) {
        case None =>
          assert forall j :: 0 < j < |rooms| ==> rooms[j] == rooms[1..][j - 1];
        case Some(name) =>
          var i :| 0 <= i < |rooms[1..]| && rooms[1..][i].joined && rooms[1..][i].room == name
                   && forall j :: 0 <= j < i ==> !rooms[1..][j].joined;
          assert rooms[i + 1] == rooms[1..][i];
          forall j | 0 <= j < i + 1 ensures !rooms[j].joined {
            assert j > 0 ==> rooms[j] == rooms[1..][j - 1];
          }
      }
    }
  }

  /** Joining makes a room current; leaving the current room passes to the first one still
      joined, and to none when there is none; nothing but a switch moves it otherwise. */
  lemma CurrentRoomFollows(st: RoomsState, op: RoomOp, now: Millis)
    ensures var t := Apply(st, op, now);
            match op
            case SetLocalJoined(name, true) => t.currentRoom == Some(name)
            case SetLocalJoined(name, false) =>
              if st.currentRoom == Some(name) then FirstToBeJoined(t.rooms, t.currentRoom) else t.currentRoom == st.currentRoom
            case SetCurrent(current) => t.currentRoom == current && t.rooms == st.rooms
            case _ => t.currentRoom == st.currentRoom
  {
    hide Change, FirstJoined, FirstToBeJoined;
    FirstJoinedIs(Apply(st, op, now).rooms);
  }

  /** A switch goes to a joined room, or to none. */
  ghost predicate SwitchesToJoined(st: RoomsState, op: RoomOp) {
    op.SetCurrent? && op.current.Some? ==> op.current.value in Flagged(st.rooms)
  }

  ghost predicate CurrentJoined(st: RoomsState) {
    st.currentRoom.Some? ==> st.currentRoom.value in Flagged(st.rooms)
  }

  lemma ApplyKeepsCurrentJoined(st: RoomsState, op: RoomOp, now: Millis)
    requires AllDifferent(st.rooms, SameRoom) && CurrentJoined(st) && SwitchesToJoined(st, op)
    ensures CurrentJoined(Apply(st, op, now)) && AllDifferent(Apply(st, op, now).rooms, SameRoom)
  {
    hide AllDifferent, ApplyToRooms, Flagged;
    var t := Apply(st, op, now);
    ApplyFlags(st, op, now);
    CurrentRoomFollows(st, op, now);
    if op.SetLocalJoined? && !op.joined && st.currentRoom == Some(op.room) && t.currentRoom.Some? {
      var i :| 0 <= i < |t.rooms| && t.rooms[i].joined && t.rooms[i].room == t.currentRoom.value;
      FlaggedAt(t.rooms, i);
    }
  }

  /** In every run that switches only to joined rooms the current room is a joined one,
      through leaves and merges too. */
  lemma {:induction false} CurrentRoomIsJoined(st: RoomsState, ops: seq<TimedOp>)
    requires AllDifferent(st.rooms, SameRoom) && CurrentJoined(st)
    requires forall n :: 0 <= n < |ops| ==> SwitchesToJoined(Run(st, ops[..n]), ops[n].op)
    ensures CurrentJoined(Run(st, ops)) && AllDifferent(Run(st, ops).rooms, SameRoom)
    decreases ops
  {
    hide AllDifferent, Apply, CurrentJoined, SwitchesToJoined;
    if ops != [] {
      var init, last := ops[..|ops| - 1], ops[|ops| - 1];
      forall n | 0 <= n < |init| ensures SwitchesToJoined(Run(st, init[..n]), init[n].op) {
        assert init[..n] == ops[..n];
      }
      CurrentRoomIsJoined(st, init);
      ApplyKeepsCurrentJoined(Run(st, init), last.op, last.now);
    }
  }

  // ---- The history ------------------------------------------------------

  lemma NewestOfSorted(history: seq<RoomEvent>, e: RoomEvent)
    requires Sorted(history, NotLater) && |history| <= 48 && forall k :: 0 <= k < |history| ==> history[k].timestamp <= e.timestamp
    ensures Recorded(history, e) == (if |history| < 48 then history else history[1..]) + [e]
    ensures Sorted(Recorded(history, e), NotLater) && |Recorded(history, e)| <= 48
  {
    SortOfSorted(history + [e], NotLater);
    if |history| == 48 {
      assert (history + [e])[1..] == history[1..] + [e];
    }
  }

  /** An event recorded by a clock that is not behind ends the history, word for word; the
      oldest event makes room for it when there are 48, and no other is touched. */
  lemma RecordEndsHistory(r: Room, op: RoomOp, now: Millis)
    requires ValidRoom(r) && op.Record? && forall k :: 0 <= k < |r.history| ==> r.history[k].timestamp <= now
    ensures Change(Refresh(r), op, now).history
         == (if |r.history| < 48 then r.history else r.history[1..])
          + [RoomEvent(op.eventId, op.eventType, op.peerId, op.body, now)]
  {
    RefreshIsIdentity(r);
    NewestOfSorted(r.history, RoomEvent(op.eventId, op.eventType, op.peerId, op.body, now));
    SortOfSorted(Edit(Refresh(r), op, now).history, NotLater);
  }

  /** Presence updates and joins leave the history alone. */
  lemma OthersKeepHistory(r: Room, op: RoomOp, now: Millis)
    requires ValidRoom(r) && (op.UpsertMember? || op.SetLocalJoined?)
    ensures Change(Refresh(r), op, now).history == r.history
  {
    RefreshIsIdentity(r);
    SortOfSorted(r.history, NotLater);
  }
}
