// Room membership (core/transport/src/node.rs): local commands change the joined
// set and the rooms state at once, but subscriptions follow later, when the
// batch's deferred actions are applied.

module Membership {
  import opened Prelude
  import opened Sorting
  import opened Rooms

  const CHAT_ROOM_TOPIC_PREFIX: string := "void.chat.room."

  function RoomTopic(room: string): string {
    CHAT_ROOM_TOPIC_PREFIX + room
  }

  function RoomFromTopic(topic: string): Option<string> {
    if CHAT_ROOM_TOPIC_PREFIX <= topic then Some(topic[|CHAT_ROOM_TOPIC_PREFIX|..]) else None
  }

  datatype Command =
    | SendDirect(peer: string, body: string)
    | SendRoom(room: string, body: string)
    | Join(room: string)
    | Leave(room: string)
    | SwitchRoom(room: string)
    | MarkRead(scope: Option<string>)

  /** A drained command with the clock reading and the random event id it uses, and
      whether marking a room read clears any message. */
  datatype Drained = Drained(command: Command, now: Millis, eventId: string, cleared: bool)

  datatype Action = Subscribe(topic: string) | Unsubscribe(topic: string) | Publish(topic: string)

  datatype State = State(me: string, joined: set<string>, rooms: RoomsState, subscribed: set<string>, lastSync: Millis)

  /** `CHAT_ROOM_SYNC_INTERVAL` in milliseconds. */
  const ROOM_SYNC_INTERVAL_MS: Millis := 2_000

  // ---- Commands and actions ---------------------------------------------

  function RunOps(rooms: RoomsState, ops: seq<RoomOp>, now: Millis): RoomsState {
    if ops == [] then rooms else Apply(RunOps(rooms, ops[..|ops| - 1], now), ops[|ops| - 1], now)
  }

  /** The edits a command makes to the rooms state, in order. */
  function OpsOf(s: State, d: Drained): seq<RoomOp> {
    match d.command
    case SendDirect(_, _) => []
    case SendRoom(room, body) => [SetCurrent(Some(room)), Record(room, "room.message", s.me, Some(body), d.eventId)]
    case Join(room) =>
      (if room in s.joined then [] else [SetLocalJoined(room, true), UpsertMember(room, s.me, true)])
      + [Record(room, "room.join", s.me, None, d.eventId)]
    case Leave(room) =>
      [SetLocalJoined(room, false), UpsertMember(room, s.me, false), Record(room, "room.leave", s.me, None, d.eventId)]
    case SwitchRoom(room) => [SetCurrent(Some(room))]
    case MarkRead(_) => []
  }

  function JoinedAfter(joined: set<string>, c: Command): set<string> {
    match c
    case Join(room) => joined + {room}
    case Leave(room) => joined - {room}
    case _ => joined
  }

  // ---- The periodic room sync -------------------------------------------

  predicate IsLeast(x: string, names: set<string>) {
    x in names && forall y :: y in names ==> y == x || Precedes(x, y)
  }

  lemma {:induction false} LeastExists(names: set<string>)
    requires names != {}
    ensures exists x :: IsLeast(x, names)
    decreases names
  {
    var x :| x in names;
    if names == {x} {
      assert IsLeast(x, names);
    } else {
      LeastExists(names - {x});
      var y :| IsLeast(y, names - {x});
      PrecedesTotal(x, y);
      if Precedes(x, y) {
        forall z | z in names ensures z == x || Precedes(x, z) {
          if z != x && z != y {
            PrecedesTransitive(x, y, z);
          }
        }
        assert IsLeast(x, names);
      } else {
        assert IsLeast(y, names);
      }
    }
  }

  lemma LeastUnique(x: string, y: string, names: set<string>)
    requires IsLeast(x, names) && IsLeast(y, names)
    ensures x == y
  {
    if x != y {
      PrecedesTransitive(x, y, x);
      PrecedesIrreflexive(x);
    }
  }

  /** The names in ascending order, as a sorted set is traversed. */
  function Ascending(names: set<string>): seq<string> {
    if names == {} then []
    else
      LeastExists(names);
      assert forall x, y :: IsLeast(x, names) && IsLeast(y, names) ==> x == y by {
        forall x, y | IsLeast(x, names) && IsLeast(y, names) ensures x == y {
          LeastUnique(x, y, names);
        }
      }
      var x :| IsLeast(x, names);
      [x] + Ascending(names - {x})
  }

  function Upserts(me: string, names: seq<string>): seq<RoomOp> {
    seq(|names|, k requires 0 <= k < |names| => UpsertMember(names[k], me, true))
  }

  function Publications(names: seq<string>): seq<Action> {
    seq(|names|, k requires 0 <= k < |names| => Publish(RoomTopic(names[k])))
  }

  predicate SyncDue(s: State, now: Millis) {
    s.joined != {} && SaturatingSub(now, s.lastSync) >= ROOM_SYNC_INTERVAL_MS
  }

  /** The local member is refreshed in every joined room, at most once per interval. */
  function Sync(s: State, now: Millis): State {
    if SyncDue(s, now) then s.(lastSync := now, rooms := RunOps(s.rooms, Upserts(s.me, Ascending(s.joined)), now)) else s
  }

  function SyncActions(s: State, now: Millis): seq<Action> {
    if SyncDue(s, now) then Publications(Ascending(s.joined)) else []
  }

  // ---- Commands ---------------------------------------------------------

  /** The state after a command's own edits. */
  function Edited(s: State, d: Drained): State {
    s.(joined := JoinedAfter(s.joined, d.command), rooms := RunOps(s.rooms, OpsOf(s, d), d.now))
  }

  function Process(s: State, d: Drained): State {
    if d.command.SwitchRoom? && d.cleared then Sync(Edited(s, d), d.now) else Edited(s, d)
  }

  function ActionsOf(s: State, d: Drained): seq<Action> {
    match d.command
    case Join(room) => [Subscribe(RoomTopic(room)), Publish(RoomTopic(room)), Publish(RoomTopic(room))]
    case Leave(room) => [Publish(RoomTopic(room)), Unsubscribe(RoomTopic(room))]
    case SwitchRoom(_) => if d.cleared then SyncActions(Edited(s, d), d.now) else []
    case _ => []
  }

  function ProcessAll(s: State, batch: seq<Drained>): State {
    if batch == [] then s else Process(ProcessAll(s, batch[..|batch| - 1]), batch[|batch| - 1])
  }

  function AllActions(s: State, batch: seq<Drained>): seq<Action> {
    if batch == [] then []
    else
      var init := batch[..|batch| - 1];
      AllActions(s, init) + ActionsOf(ProcessAll(s, init), batch[|batch| - 1])
  }

  function Perform(s: State, a: Action): State {
    match a
    case Subscribe(topic) =>
      var room := RoomFromTopic(topic);
      s.(subscribed := s.subscribed + {topic}, joined := if room.Some? then s.joined + {room.value} else s.joined)
    case Unsubscribe(topic) =>
      var room := RoomFromTopic(topic);
      s.(subscribed := s.subscribed - {topic}, joined := if room.Some? then s.joined - {room.value} else s.joined)
    case Publish(_) => s
  }

  function PerformAll(s: State, actions: seq<Action>): State {
    if actions == [] then s else Perform(PerformAll(s, actions[..|actions| - 1]), actions[|actions| - 1])
  }

  /** One tick: every drained command, the room sync, then every deferred action. */
  function Tick(s: State, batch: seq<Drained>, now: Millis): State {
    var t := ProcessAll(s, batch);
    PerformAll(Sync(t, now), AllActions(s, batch) + SyncActions(t, now))
  }

  class RoomRuntime {
    const localPeerId: string
    var joinedRooms: set<string>
    var rooms: RoomsState
    var subscriptions: set<string>
    var lastRoomSync: Millis

    function Value(): State
      reads this
    {
      State(localPeerId, joinedRooms, rooms, subscriptions, lastRoomSync)
    }

    /** Start-up: the joined rooms come from the stored flags, and each is subscribed. */
    constructor (me: string, stored: RoomsState)
      ensures Value() == StartUp(me, stored)
      ensures AllDifferent(stored.rooms, SameRoom) ==> InAgreement(Value())
    {
      localPeerId := me;
      rooms := stored;
      joinedRooms := Flagged(stored.rooms);
      subscriptions := set r | r in Flagged(stored.rooms) :: RoomTopic(r);
      lastRoomSync := 0;
      new;
      if AllDifferent(stored.rooms, SameRoom) {
        StartUpAgrees(me, stored);
      }
    }

    method EditRooms(ops: seq<RoomOp>, now: Millis)
      modifies this`rooms
      ensures rooms == RunOps(old(rooms), ops, now)
    {
      hide Apply;
      for k := 0 to |ops|
        invariant rooms == RunOps(old(rooms), ops[..k], now)
      {
        rooms := Apply(rooms, ops[k], now);
        assert ops[..k + 1][..k] == ops[..k];
      }
      assert ops[..|ops|] == ops;
    }

    /** The local member is upserted in every joined room, in order, and each room's
        snapshot is to be published. */
    method BuildRoomSyncActions(now: Millis) returns (actions: seq<Action>)
      modifies this`rooms, this`lastRoomSync
      ensures Value() == Sync(old(Value()), now) && actions == SyncActions(old(Value()), now)
    {
      hide Apply, RunOps;
      if joinedRooms == {} || SaturatingSub(now, lastRoomSync) < ROOM_SYNC_INTERVAL_MS {
        return [];
      }
      lastRoomSync := now;
      actions := [];
      var names := Ascending(joinedRooms);
      NoOps(rooms, Upserts(localPeerId, names), now);
      for k := 0 to |names|
        invariant rooms == RunOps(old(rooms), Upserts(localPeerId, names)[..k], now)
        invariant actions == Publications(names)[..k] && lastRoomSync == now
      {
        OneMoreOp(old(rooms), Upserts(localPeerId, names), k, now);
        rooms := Apply(rooms, UpsertMember(names[k], localPeerId, true), now);
        actions := actions + [Publish(RoomTopic(names[k]))];
      }
      assert Upserts(localPeerId, names)[..|names|] == Upserts(localPeerId, names);
    }

    method JoinRoom(d: Drained, room: string) returns (actions: seq<Action>)
      requires d.command == Join(room)
      modifies this`joinedRooms, this`rooms
      ensures Value() == Process(old(Value()), d) && actions == ActionsOf(old(Value()), d)
    {
      hide RunOps;
      var inserted := room !in joinedRooms;
      joinedRooms := joinedRooms + {room};
      var edits := if inserted then [SetLocalJoined(room, true), UpsertMember(room, localPeerId, true)] else [];
      EditRooms(edits + [Record(room, "room.join", localPeerId, None, d.eventId)], d.now);
      actions := [Subscribe(RoomTopic(room)), Publish(RoomTopic(room)), Publish(RoomTopic(room))];
    }

    method LeaveRoom(d: Drained, room: string) returns (actions: seq<Action>)
      requires d.command == Leave(room)
      modifies this`joinedRooms, this`rooms
      ensures Value() == Process(old(Value()), d) && actions == ActionsOf(old(Value()), d)
    {
      hide RunOps;
      joinedRooms := joinedRooms - {room};
      EditRooms([SetLocalJoined(room, false), UpsertMember(room, localPeerId, false),
                 Record(room, "room.leave", localPeerId, None, d.eventId)], d.now);
      actions := [Publish(RoomTopic(room)), Unsubscribe(RoomTopic(room))];
    }

    method ProcessChatCommand(d: Drained) returns (actions: seq<Action>)
      modifies this`joinedRooms, this`rooms, this`lastRoomSync
      ensures Value() == Process(old(Value()), d) && actions == ActionsOf(old(Value()), d)
    {
      hide RunOps, Sync, SyncActions;
      actions := [];
      match d.command {
        case SendDirect(_, _) => EditRooms([], d.now);
        case SendRoom(room, body) =>
          EditRooms([SetCurrent(Some(room)), Record(room, "room.message", localPeerId, Some(body), d.eventId)], d.now);
        case Join(room) => actions := JoinRoom(d, room);
        case Leave(room) => actions := LeaveRoom(d, room);
        case SwitchRoom(room) =>
          EditRooms([SetCurrent(Some(room))], d.now);
          if d.cleared {
            actions := BuildRoomSyncActions(d.now);
          }
        case MarkRead(_) => EditRooms([], d.now);
      }
    }

    method ApplyChatActions(actions: seq<Action>)
      modifies this`joinedRooms, this`subscriptions
      ensures Value() == PerformAll(old(Value()), actions)
    {
      for k := 0 to |actions|
        invariant Value() == PerformAll(old(Value()), actions[..k])
      {
        match actions[k] {
          case Subscribe(topic) =>
            subscriptions := subscriptions + {topic};
            var room := RoomFromTopic(topic);
            if room.Some? {
              joinedRooms := joinedRooms + {room.value};
            }
          case Unsubscribe(topic) =>
            subscriptions := subscriptions - {topic};
            var room := RoomFromTopic(topic);
            if room.Some? {
              joinedRooms := joinedRooms - {room.value};
            }
          case Publish(_) =>
        }
        assert actions[..k + 1][..k] == actions[..k];
      }
      assert actions[..|actions|] == actions;
    }

    method HandleChatCommandTick(batch: seq<Drained>, now: Millis)
      modifies this
      ensures Value() == Tick(old(Value()), batch, now)
    {
      hide Process, ActionsOf, Sync, SyncActions, PerformAll;
      var actions := [];
      for k := 0 to |batch|
        invariant Value() == ProcessAll(old(Value()), batch[..k]) && actions == AllActions(old(Value()), batch[..k])
      {
        var more := ProcessChatCommand(batch[k]);
        actions := actions + more;
        assert batch[..k + 1][..k] == batch[..k];
      }
      assert batch[..|batch|] == batch;
      var sync := BuildRoomSyncActions(now);
      ApplyChatActions(actions + sync);
    }
  }

  lemma NoOps(rooms: RoomsState, ops: seq<RoomOp>, now: Millis)
    ensures RunOps(rooms, ops[..0], now) == rooms
  {
  }

  lemma OneMoreOp(rooms: RoomsState, ops: seq<RoomOp>, k: nat, now: Millis)
    requires k < |ops|
    ensures RunOps(rooms, ops[..k + 1], now) == Apply(RunOps(rooms, ops[..k], now), ops[k], now)
  {
    assert ops[..k + 1][..k] == ops[..k];
  }

  // ---- Agreement --------------------------------------------------------

  /** The rooms flagged as joined in the rooms state. */
  function Flagged(rooms: seq<Room>): set<string> {
    set r | r in rooms && r.joined :: r.room
  }

  /** The rooms whose topic is subscribed. */
  function SubscribedRooms(topics: set<string>): set<string> {
    set t | t in topics && RoomFromTopic(t).Some? :: RoomFromTopic(t).value
  }

  /** Joined set, joined flags and room subscriptions are the same set. */
  predicate InAgreement(s: State) {
    && AllDifferent(s.rooms.rooms, SameRoom)
    && s.joined == Flagged(s.rooms.rooms)
    && s.joined == SubscribedRooms(s.subscribed)
  }

  /** The last Join or Leave of `room` in the batch. */
  function LastDecision(batch: seq<Drained>, room: string): Option<bool> {
    if batch == [] then None
    else
      var last := batch[|batch| - 1].command;
      if last == Join(room) then Some(true)
      else if last == Leave(room) then Some(false)
      else LastDecision(batch[..|batch| - 1], room)
  }

  /** Whether `room` is joined after `decision`, given that it was before. */
  predicate Decided(decision: Option<bool>, before: bool) {
    match decision
    case None => before
    case Some(b) => b
  }

  lemma TopicInverse(room: string, topic: string)
    ensures RoomFromTopic(RoomTopic(room)) == Some(room)
    ensures RoomFromTopic(topic) == Some(room) ==> topic == RoomTopic(room)
  {
  }

  // ---- Flags ------------------------------------------------------------

  function FlagsAfter(flags: set<string>, op: RoomOp): set<string> {
    match op
    case SetLocalJoined(room, true) => flags + {room}
    case SetLocalJoined(room, false) => flags - {room}
    case _ => flags
  }

  lemma ReplacedDiffers(rooms: seq<Room>, i: nat, r: Room)
    requires i < |rooms| && AllDifferent(rooms, SameRoom) && r.room == rooms[i].room
    ensures AllDifferent(rooms[i := r], SameRoom)
  {
  }

  /** With distinct names, a name is flagged exactly when its one room is. */
  lemma FlaggedAt(rooms: seq<Room>, i: nat)
    requires i < |rooms| && AllDifferent(rooms, SameRoom)
    ensures rooms[i].room in Flagged(rooms) <==> rooms[i].joined
  {
    if rooms[i].room in Flagged(rooms) {
      var q :| q in rooms && q.joined && q.room == rooms[i].room;
      var j :| 0 <= j < |rooms| && rooms[j] == q;
      assert j < i ==> !SameRoom(rooms[j], rooms[i]);
      assert i < j ==> !SameRoom(rooms[i], rooms[j]);
    } else {
      assert rooms[i] in rooms;
    }
  }

  lemma OtherFlagsStay(rooms: seq<Room>, i: nat, r: Room, x: string)
    requires i < |rooms| && r.room == rooms[i].room && x != r.room && x in Flagged(rooms)
    ensures x in Flagged(rooms[i := r])
  {
    var q :| q in rooms && q.joined && q.room == x;
    var j :| 0 <= j < |rooms| && rooms[j] == q;
    assert rooms[i := r][j] == q;
  }

  lemma FlagsOfReplace(rooms: seq<Room>, i: nat, r: Room)
    requires i < |rooms| && AllDifferent(rooms, SameRoom) && r.room == rooms[i].room
    ensures AllDifferent(rooms[i := r], SameRoom)
    ensures Flagged(rooms[i := r]) == if r.joined then Flagged(rooms) + {r.room} else Flagged(rooms) - {r.room}
  {
    hide Flagged, AllDifferent;
    var after := rooms[i := r];
    ReplacedDiffers(rooms, i, r);
    FlaggedAt(after, i);
    assert after[i := rooms[i]] == rooms;
    forall x | x != r.room ensures x in Flagged(after) <==> x in Flagged(rooms) {
      if x in Flagged(rooms) {
        OtherFlagsStay(rooms, i, r, x);
      }
      if x in Flagged(after) {
        OtherFlagsStay(after, i, rooms[i], x);
      }
    }
  }

  lemma FlaggedSnoc(rooms: seq<Room>, r: Room)
    requires !r.joined
    ensures Flagged(rooms + [r]) == Flagged(rooms)
  {
    assert forall q :: q in rooms + [r] <==> q in rooms || q == r;
  }

  lemma NewNameDiffers(rooms: seq<Room>, r: Room)
    requires AllDifferent(rooms, SameRoom) && forall j :: 0 <= j < |rooms| ==> rooms[j].room != r.room
    ensures AllDifferent(rooms + [r], SameRoom)
  {
  }

  lemma FlagsOfMissing(rooms: seq<Room>, name: string, now: Millis)
    requires AllDifferent(rooms, SameRoom)
    ensures AllDifferent(WithRoom(rooms, name, now), SameRoom)
    ensures Flagged(WithRoom(rooms, name, now)) == Flagged(rooms)
  {
    hide AllDifferent, Flagged, FindRoom;
    if FindRoom(rooms, name) == |rooms| {
      NewNameDiffers(rooms, FreshRoom(name, now));
      FlaggedSnoc(rooms, FreshRoom(name, now));
    }
  }

  lemma ChangeHeader(r: Room, op: RoomOp, now: Millis)
    requires !op.SetCurrent?
    ensures var c := Change(Refresh(r), op, now);
            c.room == r.room && c.joined == if op.SetLocalJoined? then op.joined else r.joined
  {
  }

  /** Only `SetLocalJoined` moves a joined flag: in particular a remote snapshot,
      whatever it claims, never makes this node a member. */
  lemma ApplyFlags(st: RoomsState, op: RoomOp, now: Millis)
    requires AllDifferent(st.rooms, SameRoom)
    ensures AllDifferent(Apply(st, op, now).rooms, SameRoom)
    ensures Flagged(Apply(st, op, now).rooms) == FlagsAfter(Flagged(st.rooms), op)
  {
    if !op.SetCurrent? {
      var name := RoomOf(op);
      FlagsOfMissing(st.rooms, name, now);
      var present := WithRoom(st.rooms, name, now);
      var i := FindRoom(present, name);
      var c := Change(Refresh(present[i]), op, now);
      ChangeHeader(present[i], op, now);
      FlagsOfReplace(present, i, c);
      FlaggedAt(present, i);
    }
  }

  function FlagsAfterAll(flags: set<string>, ops: seq<RoomOp>): set<string> {
    if ops == [] then flags else FlagsAfter(FlagsAfterAll(flags, ops[..|ops| - 1]), ops[|ops| - 1])
  }

  lemma {:induction false} RunOpsFlags(st: RoomsState, ops: seq<RoomOp>, now: Millis)
    requires AllDifferent(st.rooms, SameRoom)
    ensures AllDifferent(RunOps(st, ops, now).rooms, SameRoom)
    ensures Flagged(RunOps(st, ops, now).rooms) == FlagsAfterAll(Flagged(st.rooms), ops)
  {
    if ops != [] {
      RunOpsFlags(st, ops[..|ops| - 1], now);
      ApplyFlags(RunOps(st, ops[..|ops| - 1], now), ops[|ops| - 1], now);
    }
  }

  lemma FlagsSnoc(flags: set<string>, ops: seq<RoomOp>, op: RoomOp)
    ensures FlagsAfterAll(flags, ops + [op]) == FlagsAfter(FlagsAfterAll(flags, ops), op)
  {
    assert (ops + [op])[..|ops|] == ops;
  }

  lemma FlagsOfFew(flags: set<string>, a: RoomOp, b: RoomOp, c: RoomOp)
    ensures FlagsAfterAll(flags, []) == flags
    ensures FlagsAfterAll(flags, [a]) == FlagsAfter(flags, a)
    ensures FlagsAfterAll(flags, [a, b]) == FlagsAfter(FlagsAfter(flags, a), b)
    ensures FlagsAfterAll(flags, [a, b, c]) == FlagsAfter(FlagsAfter(FlagsAfter(flags, a), b), c)
  {
    hide FlagsAfter;
    FlagsSnoc(flags, [], a);
    FlagsSnoc(flags, [a], b);
    FlagsSnoc(flags, [a, b], c);
    assert [] + [a] == [a] && [a] + [b] == [a, b] && [a, b] + [c] == [a, b, c];
  }

  lemma EditedFlags(s: State, d: Drained)
    requires s.joined == Flagged(s.rooms.rooms)
    ensures FlagsAfterAll(Flagged(s.rooms.rooms), OpsOf(s, d)) == JoinedAfter(s.joined, d.command)
  {
    hide FlagsAfterAll, Flagged;
    var f, me := s.joined, s.me;
    var none := SetCurrent(None);
    FlagsOfFew(f, none, none, none);
    match d.command
    case SendRoom(room, body) =>
      FlagsOfFew(f, SetCurrent(Some(room)), Record(room, "room.message", me, Some(body), d.eventId), none);
    case Join(room) =>
      var record := Record(room, "room.join", me, None, d.eventId);
      if room in f {
        FlagsOfFew(f, record, none, none);
        assert [] + [record] == [record] && f + {room} == f;
      } else {
        FlagsOfFew(f, SetLocalJoined(room, true), UpsertMember(room, me, true), record);
        assert OpsOf(s, d) == [SetLocalJoined(room, true), UpsertMember(room, me, true), record];
      }
    case Leave(room) =>
      FlagsOfFew(f, SetLocalJoined(room, false), UpsertMember(room, me, false), Record(room, "room.leave", me, None, d.eventId));
    case SwitchRoom(room) => FlagsOfFew(f, SetCurrent(Some(room)), none, none);
    case _ =>
  }

  lemma {:induction false} UpsertsKeepFlags(flags: set<string>, ops: seq<RoomOp>)
    requires forall k :: 0 <= k < |ops| ==> ops[k].UpsertMember?
    ensures FlagsAfterAll(flags, ops) == flags
    decreases ops
  {
    if ops != [] {
      UpsertsKeepFlags(flags, ops[..|ops| - 1]);
    }
  }

  /** Joined set and joined flags agree. */
  predicate Settled(s: State) {
    AllDifferent(s.rooms.rooms, SameRoom) && s.joined == Flagged(s.rooms.rooms)
  }

  lemma EditedSettles(s: State, d: Drained)
    requires Settled(s)
    ensures Settled(Edited(s, d))
  {
    hide RunOps, FlagsAfterAll, Flagged, AllDifferent;
    RunOpsFlags(s.rooms, OpsOf(s, d), d.now);
    EditedFlags(s, d);
  }

  /** The room sync moves no joined flag. */
  lemma SyncSettles(s: State, now: Millis)
    requires Settled(s)
    ensures Settled(Sync(s, now))
  {
    hide RunOps, FlagsAfterAll, Flagged, AllDifferent;
    var ops := Upserts(s.me, Ascending(s.joined));
    RunOpsFlags(s.rooms, ops, now);
    UpsertsKeepFlags(Flagged(s.rooms.rooms), ops);
  }

  lemma ProcessSettles(s: State, d: Drained)
    requires Settled(s)
    ensures var t := Process(s, d); Settled(t) && t.joined == JoinedAfter(s.joined, d.command) && t.subscribed == s.subscribed
  {
    hide Settled, RunOps, JoinedAfter;
    EditedSettles(s, d);
    SyncSettles(Edited(s, d), d.now);
  }

  /** While commands run, the joined set and the flags move together and follow the
      last decision; subscriptions wait. */
  lemma {:induction false} CommandsDecide(s: State, batch: seq<Drained>)
    requires Settled(s)
    ensures var t := ProcessAll(s, batch);
            && Settled(t) && t.subscribed == s.subscribed
            && forall room :: room in t.joined <==> Decided(LastDecision(batch, room), room in s.joined)
  {
    hide Settled, Process;
    if batch != [] {
      var init, last := batch[..|batch| - 1], batch[|batch| - 1];
      CommandsDecide(s, init);
      ProcessSettles(ProcessAll(s, init), last);
    }
  }

  // ---- Actions ----------------------------------------------------------

  /** The last subscription change to `room` among the actions. */
  function LastAction(actions: seq<Action>, room: string): Option<bool> {
    if actions == [] then None
    else
      var last := actions[|actions| - 1];
      if last == Subscribe(RoomTopic(room)) then Some(true)
      else if last == Unsubscribe(RoomTopic(room)) then Some(false)
      else LastAction(actions[..|actions| - 1], room)
  }

  lemma {:induction false} LastActionConcat(a: seq<Action>, b: seq<Action>, room: string)
    ensures LastAction(a + b, room) == if LastAction(b, room).Some? then LastAction(b, room) else LastAction(a, room)
  {
    if b == [] {
      assert a + b == a;
    } else {
      LastActionConcat(a, b[..|b| - 1], room);
      assert (a + b)[..|a + b| - 1] == a + b[..|b| - 1];
    }
  }

  lemma LastActionOne(a: Action, room: string)
    ensures LastAction([a], room) ==
            if a == Subscribe(RoomTopic(room)) then Some(true)
            else if a == Unsubscribe(RoomTopic(room)) then Some(false)
            else None
  {
    assert [a][..0] == [];
  }

  lemma {:induction false} PublishingDecidesNothing(actions: seq<Action>, room: string)
    requires forall k :: 0 <= k < |actions| ==> actions[k].Publish?
    ensures LastAction(actions, room) == None
    decreases actions
  {
    if actions != [] {
      PublishingDecidesNothing(actions[..|actions| - 1], room);
    }
  }

  lemma SyncDecidesNothing(s: State, now: Millis, room: string)
    ensures LastAction(SyncActions(s, now), room) == None
  {
    hide Ascending;
    PublishingDecidesNothing(SyncActions(s, now), room);
  }

  lemma MembershipActions(c: Command, room: string)
    requires c.Join? || c.Leave?
    ensures var t := RoomTopic(c.room);
            var actions := if c.Join? then [Subscribe(t), Publish(t), Publish(t)] else [Publish(t), Unsubscribe(t)];
            LastAction(actions, room) == (if c.room != room then None else Some(c.Join?))
  {
    var t := RoomTopic(c.room);
    TopicInverse(c.room, RoomTopic(room));
    TopicInverse(room, t);
    PublishingDecidesNothing([Publish(t), Publish(t)], room);
    PublishingDecidesNothing([Publish(t)], room);
    if c.Join? {
      LastActionOne(Subscribe(t), room);
      LastActionConcat([Subscribe(t)], [Publish(t), Publish(t)], room);
      assert [Subscribe(t), Publish(t), Publish(t)] == [Subscribe(t)] + [Publish(t), Publish(t)];
    } else {
      LastActionOne(Unsubscribe(t), room);
      LastActionConcat([Publish(t)], [Unsubscribe(t)], room);
      assert [Publish(t), Unsubscribe(t)] == [Publish(t)] + [Unsubscribe(t)];
    }
  }

  lemma CommandActions(s: State, d: Drained, room: string)
    ensures LastAction(ActionsOf(s, d), room)
         == (if d.command == Join(room) then Some(true) else if d.command == Leave(room) then Some(false) else None)
  {
    hide LastAction, SyncActions, RoomTopic;
    NoActions(room);
    match d.command
    case Join(_) => MembershipActions(d.command, room);
    case Leave(_) => MembershipActions(d.command, room);
    case SwitchRoom(_) => SyncDecidesNothing(Edited(s, d), d.now, room);
    case _ =>
  }

  lemma NoActions(room: string)
    ensures LastAction([], room) == None
  {
  }

  lemma {:induction false} ActionsFollowDecisions(s: State, batch: seq<Drained>, room: string)
    ensures LastAction(AllActions(s, batch), room) == LastDecision(batch, room)
  {
    hide ActionsOf, ProcessAll, LastAction;
    NoActions(room);
    if batch != [] {
      var init, last := batch[..|batch| - 1], batch[|batch| - 1];
      ActionsFollowDecisions(s, init, room);
      LastActionConcat(AllActions(s, init), ActionsOf(ProcessAll(s, init), last), room);
      CommandActions(ProcessAll(s, init), last, room);
    }
  }

  lemma {:induction false} PerformAllDecides(s: State, actions: seq<Action>, room: string)
    requires RoomTopicsOnly(actions)
    ensures var t := PerformAll(s, actions);
            && t.rooms == s.rooms && t.me == s.me
            && (room in t.joined <==> Decided(LastAction(actions, room), room in s.joined))
            && (RoomTopic(room) in t.subscribed <==> Decided(LastAction(actions, room), RoomTopic(room) in s.subscribed))
  {
    if actions != [] {
      var init, last := actions[..|actions| - 1], actions[|actions| - 1];
      PerformAllDecides(s, init, room);
      TopicInverse(room, last.topic);
    }
  }

  predicate RoomTopicsOnly(actions: seq<Action>) {
    forall k :: 0 <= k < |actions| ==> RoomFromTopic(actions[k].topic).Some?
  }

  lemma SyncRoomTopics(s: State, now: Millis)
    ensures RoomTopicsOnly(SyncActions(s, now))
  {
    hide Ascending;
    var actions := SyncActions(s, now);
    forall k | 0 <= k < |actions| ensures RoomFromTopic(actions[k].topic).Some? {
      var name := Ascending(s.joined)[k];
      TopicInverse(name, RoomTopic(name));
    }
  }

  lemma OneRoomTopic(actions: seq<Action>, room: string)
    requires forall k :: 0 <= k < |actions| ==> actions[k].topic == RoomTopic(room)
    ensures RoomTopicsOnly(actions)
  {
    TopicInverse(room, RoomTopic(room));
  }

  lemma CommandRoomTopics(s: State, d: Drained)
    ensures RoomTopicsOnly(ActionsOf(s, d))
  {
    hide SyncActions, RoomTopic, RoomTopicsOnly, Edited;
    SyncRoomTopics(Edited(s, d), d.now);
    match d.command
    case Join(room) => OneRoomTopic(ActionsOf(s, d), room);
    case Leave(room) => OneRoomTopic(ActionsOf(s, d), room);
    case SwitchRoom(_) => OneRoomTopic([], "");
    case _ => OneRoomTopic([], "");
  }

  lemma {:induction false} ActionsAreRoomTopics(s: State, batch: seq<Drained>)
    ensures RoomTopicsOnly(AllActions(s, batch))
  {
    hide ActionsOf, ProcessAll, RoomFromTopic;
    if batch != [] {
      var init := batch[..|batch| - 1];
      ActionsAreRoomTopics(s, init);
      CommandRoomTopics(ProcessAll(s, init), batch[|batch| - 1]);
    }
  }

  lemma SubscribedIff(topics: set<string>, room: string)
    ensures room in SubscribedRooms(topics) <==> RoomTopic(room) in topics
  {
    TopicInverse(room, RoomTopic(room));
    if room in SubscribedRooms(topics) {
      var t :| t in topics && RoomFromTopic(t) == Some(room);
      TopicInverse(room, t);
    }
  }

  /** The deferred actions of a tick: room topics only, decided as the batch decided. */
  lemma TickActions(s: State, batch: seq<Drained>, now: Millis, room: string)
    ensures var actions := AllActions(s, batch) + SyncActions(ProcessAll(s, batch), now);
            RoomTopicsOnly(actions) && LastAction(actions, room) == LastDecision(batch, room)
  {
    hide LastAction, AllActions, ProcessAll, SyncActions, RoomFromTopic;
    var t := ProcessAll(s, batch);
    ActionsAreRoomTopics(s, batch);
    SyncRoomTopics(t, now);
    ActionsFollowDecisions(s, batch, room);
    SyncDecidesNothing(t, now, room);
    LastActionConcat(AllActions(s, batch), SyncActions(t, now), room);
  }

  /** After any batch of commands, the room sync and the deferred actions, the joined
      set, the joined flags and the room subscriptions are again one set, and each room
      is in it exactly as its last Join or Leave in the batch decided. */
  lemma TickAgrees(s: State, batch: seq<Drained>, now: Millis)
    requires InAgreement(s)
    ensures InAgreement(Tick(s, batch, now))
    ensures forall room :: room in Tick(s, batch, now).joined <==> Decided(LastDecision(batch, room), room in s.joined)
  {
    hide AllActions, ProcessAll, SyncActions, PerformAll, LastAction, LastDecision, SubscribedRooms, RoomTopicsOnly, Flagged,
         AllDifferent, RunOps;
    CommandsDecide(s, batch);
    var t := ProcessAll(s, batch);
    SyncSettles(t, now);
    var v := Sync(t, now);
    var actions := AllActions(s, batch) + SyncActions(t, now);
    var u := PerformAll(v, actions);
    forall room
      ensures room in u.joined <==> Decided(LastDecision(batch, room), room in s.joined)
      ensures room in u.joined <==> room in v.joined
      ensures room in u.joined <==> room in SubscribedRooms(u.subscribed)
    {
      TickActions(s, batch, now, room);
      PerformAllDecides(v, actions, room);
      SubscribedIff(s.subscribed, room);
      SubscribedIff(u.subscribed, room);
    }
    TickActions(s, batch, now, "");
    PerformAllDecides(v, actions, "");
    assert u.joined == v.joined;
  }

  // ---- Runs -------------------------------------------------------------

  /** What happens to a node: a tick, or a rooms edit made by an inbound message (none
      of which sets the local joined flag). */
  datatype Event = LocalTick(batch: seq<Drained>, now: Millis) | RoomEdit(op: RoomOp, now: Millis)

  function Happen(s: State, e: Event): State {
    match e
    case LocalTick(batch, now) => Tick(s, batch, now)
    case RoomEdit(op, now) => if op.SetLocalJoined? then s else s.(rooms := Apply(s.rooms, op, now))
  }

  function HappenAll(s: State, events: seq<Event>): State {
    if events == [] then s else Happen(HappenAll(s, events[..|events| - 1]), events[|events| - 1])
  }

  function StartUp(me: string, stored: RoomsState): State {
    State(me, Flagged(stored.rooms), stored, set r | r in Flagged(stored.rooms) :: RoomTopic(r), 0)
  }

  lemma StartUpAgrees(me: string, stored: RoomsState)
    requires AllDifferent(stored.rooms, SameRoom)
    ensures InAgreement(StartUp(me, stored))
  {
    var flags := Flagged(stored.rooms);
    var topics := set r | r in flags :: RoomTopic(r);
    forall room ensures room in SubscribedRooms(topics) <==> room in flags {
      SubscribedIff(topics, room);
      if RoomTopic(room) in topics {
        var r :| r in flags && RoomTopic(r) == RoomTopic(room);
        TopicInverse(r, RoomTopic(room));
        TopicInverse(room, RoomTopic(room));
      }
    }
  }

  /** Membership agreement is kept by every run of ticks and inbound edits. */
  lemma {:induction false} RunAgrees(s: State, events: seq<Event>)
    requires InAgreement(s)
    ensures InAgreement(HappenAll(s, events))
  {
    if events != [] {
      RunAgrees(s, events[..|events| - 1]);
      var t := HappenAll(s, events[..|events| - 1]);
      match events[|events| - 1]
      case LocalTick(batch, now) => TickAgrees(t, batch, now);
      case RoomEdit(op, now) => ApplyFlags(t.rooms, op, now);
    }
  }
}
