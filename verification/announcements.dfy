// What a node tells a room's other members, and when (core/transport/src/node.rs): the
// heartbeat, the event each command records, and that announcements go out while the
// room's topic is subscribed.

module Announcements {
  import opened Prelude
  import opened Sorting
  import opened Rooms
  import opened Membership
  import opened Attendance
  import opened RoomEffects

  // ---- The heartbeat ----------------------------------------------------

  lemma {:induction false} AscendingCount(names: set<string>)
    ensures |Ascending(names)| == |names|
    decreases names
  {
    if names != {} {
      AscendingCount(names - {Ascending(names)[0]});
    }
  }

  lemma {:induction false} AscendingSorted(names: set<string>)
    ensures forall i, j :: 0 <= i < j < |Ascending(names)| ==> Precedes(Ascending(names)[i], Ascending(names)[j])
    decreases names
  {
    if names != {} {
      var first := Ascending(names)[0];
      AscendingSorted(names - {first});
      AscendingElements(names - {first});
      assert forall k :: 0 < k < |Ascending(names)| ==> Ascending(names)[k] in Ascending(names - {first});
    }
  }

  /** The heartbeat goes out when a room is joined and two seconds have passed since the
      last one: once to each joined room's topic, in ascending order of the rooms. */
  lemma HeartbeatIff(s: State, now: Millis)
    ensures SyncActions(s, now) != [] <==> s.joined != {} && s.lastSync + 2_000 <= now
    ensures SyncActions(s, now) == [] ==> Sync(s, now) == s
    ensures SyncActions(s, now) != [] ==>
              && Sync(s, now).lastSync == now && |SyncActions(s, now)| == |s.joined|
              && (forall room :: room in s.joined ==> Publish("void.chat.room." + room) in SyncActions(s, now))
              && (forall i, j :: 0 <= i < j < |s.joined| ==>
                    Precedes(SyncActions(s, now)[i].topic[15..], SyncActions(s, now)[j].topic[15..]))
  {
    hide Ascending, RunOps, Precedes;
    var names, actions := Ascending(s.joined), SyncActions(s, now);
    AscendingCount(s.joined);
    AscendingSorted(s.joined);
    AscendingElements(s.joined);
    if SyncDue(s, now) {
      forall room | room in s.joined ensures Publish("void.chat.room." + room) in actions {
        var k :| 0 <= k < |names| && names[k] == room;
        assert actions[k] == Publish(RoomTopic(names[k]));
      }
      assert forall k :: 0 <= k < |names| ==> actions[k].topic[15..] == names[k];
    }
  }

  /** Switching rooms beats only when it clears unread messages, and then under the same
      conditions; from the start, a node that has joined a room beats at its first tick. */
  lemma OtherHeartbeats(s: State, d: Drained, me: string, stored: RoomsState, now: Millis)
    ensures d.command.SwitchRoom? ==>
              && (ActionsOf(s, d) != [] <==> d.cleared && s.joined != {} && s.lastSync + 2_000 <= d.now)
              && (Process(s, d).lastSync == if ActionsOf(s, d) != [] then d.now else s.lastSync)
    ensures SyncActions(StartUp(me, stored), now) != [] <==> (exists r :: r in stored.rooms && r.joined) && 2_000 <= now
  {
    hide RunOps, Ascending;
    HeartbeatIff(Edited(s, d), d.now);
    HeartbeatIff(StartUp(me, stored), now);
    if r :| r in stored.rooms && r.joined {
      assert r.room in Flagged(stored.rooms);
    }
  }

  lemma {:induction false} PerformingKeepsSync(s: State, actions: seq<Action>)
    ensures PerformAll(s, actions).lastSync == s.lastSync
  {
    if actions != [] {
      PerformingKeepsSync(s, actions[..|actions| - 1]);
    }
  }

  /** A heartbeat of the tick `e`, besides those of its commands. */
  predicate Beats(s: State, e: Event) {
    e.LocalTick? && SyncActions(ProcessAll(s, e.batch), e.now) != []
  }

  lemma {:induction false} CommandsKeepSync(s: State, batch: seq<Drained>)
    ensures s.lastSync <= ProcessAll(s, batch).lastSync
  {
    hide RunOps, Ascending;
    if batch != [] {
      CommandsKeepSync(s, batch[..|batch| - 1]);
    }
  }

  lemma HappenKeepsSync(s: State, e: Event)
    ensures s.lastSync <= Happen(s, e).lastSync
    ensures Beats(s, e) ==> s.lastSync + 2_000 <= e.now == Happen(s, e).lastSync
  {
    hide ProcessAll, PerformAll, AllActions, RunOps, Ascending, Apply;
    if e.LocalTick? {
      var t := ProcessAll(s, e.batch);
      CommandsKeepSync(s, e.batch);
      HeartbeatIff(t, e.now);
      PerformingKeepsSync(Sync(t, e.now), AllActions(s, e.batch) + SyncActions(t, e.now));
    }
  }

  lemma {:induction false} SyncOnlyAdvances(s: State, events: seq<Event>, i: nat, j: nat)
    requires i <= j <= |events|
    ensures HappenAll(s, events[..i]).lastSync <= HappenAll(s, events[..j]).lastSync
    decreases j
  {
    hide Happen;
    if i < j {
      SyncOnlyAdvances(s, events, i, j - 1);
      assert events[..j][..j - 1] == events[..j - 1];
      HappenKeepsSync(HappenAll(s, events[..j - 1]), events[j - 1]);
    }
  }

  /** In every run two heartbeats of ticks are two seconds apart, whatever the clock does
      and whatever happens in between. */
  lemma HeartbeatsSpaced(s: State, events: seq<Event>, i: nat, j: nat)
    requires i < j < |events| && Beats(HappenAll(s, events[..i]), events[i]) && Beats(HappenAll(s, events[..j]), events[j])
    ensures events[i].now + 2_000 <= events[j].now
  {
    hide Happen, Beats;
    assert events[..i + 1][..i] == events[..i];
    HappenKeepsSync(HappenAll(s, events[..i]), events[i]);
    SyncOnlyAdvances(s, events, i + 1, j);
    HappenKeepsSync(HappenAll(s, events[..j]), events[j]);
  }

  // ---- What commands record ---------------------------------------------

  /** The event a command leaves in a room: its kind, the local peer, the body and the time. */
  function EventOf(me: string, d: Drained): Option<(string, RoomEvent)> {
    match d.command
    case SendRoom(room, body) => Some((room, RoomEvent(d.eventId, "room.message", me, Some(body), d.now)))
    case Join(room) => Some((room, RoomEvent(d.eventId, "room.join", me, None, d.now)))
    case Leave(room) => Some((room, RoomEvent(d.eventId, "room.leave", me, None, d.now)))
    case _ => None
  }

  /** The room, if it exists, is valid, and nothing in its history is later than `now`. */
  ghost predicate Ready(st: RoomsState, name: string, now: Millis) {
    var i := FindRoom(st.rooms, name);
    i < |st.rooms| ==> ValidRoom(st.rooms[i]) && forall k :: 0 <= k < |st.rooms[i].history| ==> st.rooms[i].history[k].timestamp <= now
  }

  function HistoryOf(st: RoomsState, name: string): seq<RoomEvent> {
    var i := FindRoom(st.rooms, name);
    if i < |st.rooms| then st.rooms[i].history else []
  }

  lemma OtherOpKeepsReady(st: RoomsState, op: RoomOp, now: Millis, name: string)
    requires Ready(st, name, now) && (op.SetCurrent? || ((op.UpsertMember? || op.SetLocalJoined?) && RoomOf(op) == name))
    ensures Ready(Apply(st, op, now), name, now) && HistoryOf(Apply(st, op, now), name) == HistoryOf(st, name)
  {
    hide FindRoom, Refresh, Edit, ValidRoom;
    if !op.SetCurrent? {
      var i := FindRoom(st.rooms, name);
      var r := if i < |st.rooms| then st.rooms[i] else FreshRoom(name, now);
      FreshRoomValid(name, now);
      EditsOneRoom(st, op, now);
      RefreshedValid(r);
      RefreshIsIdentity(r);
      ChangeKeepsValid(Refresh(r), op, now);
      OthersKeepHistory(r, op, now);
    }
  }

  lemma RecordEndsRoom(st: RoomsState, op: RoomOp, now: Millis)
    requires op.Record? && Ready(st, op.room, now)
    ensures var h := HistoryOf(Apply(st, op, now), op.room);
            h != [] && h[|h| - 1] == RoomEvent(op.eventId, op.eventType, op.peerId, op.body, now)
  {
    hide FindRoom, Refresh, Edit, ValidRoom;
    var i := FindRoom(st.rooms, op.room);
    var r := if i < |st.rooms| then st.rooms[i] else FreshRoom(op.room, now);
    FreshRoomValid(op.room, now);
    EditsOneRoom(st, op, now);
    RecordEndsHistory(r, op, now);
  }

  lemma {:induction false} RunOpsFew(st: RoomsState, ops: seq<RoomOp>, now: Millis)
    requires |ops| <= 3
    ensures |ops| == 0 ==> RunOps(st, ops, now) == st
    ensures |ops| == 1 ==> RunOps(st, ops, now) == Apply(st, ops[0], now)
    ensures |ops| == 2 ==> RunOps(st, ops, now) == Apply(Apply(st, ops[0], now), ops[1], now)
    ensures |ops| == 3 ==> RunOps(st, ops, now) == Apply(Apply(Apply(st, ops[0], now), ops[1], now), ops[2], now)
    decreases ops
  {
    hide Apply;
    if ops != [] {
      RunOpsFew(st, ops[..|ops| - 1], now);
    }
  }

  /** A message, a join and a leave each end their room's history with an event of their
      own kind, in the local peer's name, with the body and the time; a message and a switch
      make their room the current one, and so does joining a room anew. */
  lemma CommandIsRecorded(s: State, d: Drained)
    requires EventOf(s.me, d).Some? ==> Ready(s.rooms, EventOf(s.me, d).value.0, d.now)
    ensures EventOf(s.me, d).Some? ==>
              var h := HistoryOf(Edited(s, d).rooms, EventOf(s.me, d).value.0);
              h != [] && h[|h| - 1] == EventOf(s.me, d).value.1
    ensures d.command.SendRoom? || d.command.SwitchRoom? || (d.command.Join? && d.command.room !in s.joined)
            ==> Edited(s, d).rooms.currentRoom == Some(d.command.room)
    ensures d.command.SendDirect? || d.command.MarkRead? ==> Edited(s, d).rooms == s.rooms
  {
    hide Apply, Ready, HistoryOf, RunOps;
    var ops, now := OpsOf(s, d), d.now;
    RunOpsFew(s.rooms, ops, now);
    if ops != [] {
      CurrentRoomFollows(s.rooms, ops[0], now);
      var one := Apply(s.rooms, ops[0], now);
      if |ops| == 1 {
        if ops[0].Record? {
          RecordEndsRoom(s.rooms, ops[0], now);
        }
      } else {
        CurrentRoomFollows(one, ops[1], now);
        OtherOpKeepsReady(s.rooms, ops[0], now, EventOf(s.me, d).value.0);
        if |ops| == 2 {
          RecordEndsRoom(one, ops[1], now);
        } else {
          var two := Apply(one, ops[1], now);
          CurrentRoomFollows(two, ops[2], now);
          OtherOpKeepsReady(one, ops[1], now, ops[2].room);
          RecordEndsRoom(two, ops[2], now);
        }
      }
    }
  }

  // ---- Announcements reach their room -----------------------------------

  /** Every leave of the batch leaves a room that is joined at that moment. */
  predicate LeavesJoined(s: State, batch: seq<Drained>) {
    forall k :: 0 <= k < |batch| && batch[k].command.Leave? ==> batch[k].command.room in ProcessAll(s, batch[..k]).joined
  }

  /** Every publication among the actions goes to a topic subscribed at that moment. */
  predicate Heard(s: State, actions: seq<Action>) {
    forall k :: 0 <= k < |actions| && actions[k].Publish? ==> actions[k].topic in PerformAll(s, actions[..k]).subscribed
  }

  lemma {:induction false} PerformConcat(s: State, a: seq<Action>, b: seq<Action>)
    ensures PerformAll(s, a + b) == PerformAll(PerformAll(s, a), b)
    decreases b
  {
    if b == [] {
      assert a + b == a;
    } else {
      PerformConcat(s, a, b[..|b| - 1]);
      assert (a + b)[..|a + b| - 1] == a + b[..|b| - 1];
    }
  }

  lemma HeardConcat(s: State, a: seq<Action>, b: seq<Action>)
    requires Heard(s, a) && Heard(PerformAll(s, a), b)
    ensures Heard(s, a + b)
  {
    hide PerformAll;
    var all := a + b;
    forall k | 0 <= k < |all| && all[k].Publish? ensures all[k].topic in PerformAll(s, all[..k]).subscribed {
      if k < |a| {
        assert all[..k] == a[..k];
      } else {
        assert all[..k] == a + b[..k - |a|];
        PerformConcat(s, a, b[..k - |a|]);
      }
    }
  }

  lemma {:induction false} PublishingChangesNothing(s: State, actions: seq<Action>)
    requires forall k :: 0 <= k < |actions| ==> actions[k].Publish?
    ensures PerformAll(s, actions) == s
    decreases actions
  {
    if actions != [] {
      PublishingChangesNothing(s, actions[..|actions| - 1]);
    }
  }

  lemma PublishingHeard(s: State, actions: seq<Action>)
    requires forall k :: 0 <= k < |actions| ==> actions[k].Publish? && actions[k].topic in s.subscribed
    ensures Heard(s, actions)
  {
    hide PerformAll;
    forall k | 0 <= k < |actions| ensures actions[k].topic in PerformAll(s, actions[..k]).subscribed {
      PublishingChangesNothing(s, actions[..k]);
    }
  }

  /** Subscribing, announcing the join twice: all heard. */
  lemma JoinHeard(s: State, topic: string)
    ensures Heard(s, [Subscribe(topic), Publish(topic), Publish(topic)])
  {
    var actions := [Subscribe(topic), Publish(topic), Publish(topic)];
    assert actions[..0] == [] && actions[..1] == [Subscribe(topic)] && actions[..1][..0] == [];
    assert actions[..2][..1] == actions[..1];
  }

  lemma LeaveHeard(s: State, topic: string)
    requires topic in s.subscribed
    ensures Heard(s, [Publish(topic), Unsubscribe(topic)])
  {
    assert [Publish(topic), Unsubscribe(topic)][..0] == [];
  }

  /** The sync's publications go to the joined rooms. */
  lemma SyncHeard(s: State, now: Millis, t: State)
    requires forall room :: room in s.joined ==> RoomTopic(room) in t.subscribed
    ensures Heard(t, SyncActions(s, now))
  {
    hide Ascending, RoomTopic, Heard;
    var actions := SyncActions(s, now);
    AscendingElements(s.joined);
    forall k | 0 <= k < |actions| ensures actions[k].Publish? && actions[k].topic in t.subscribed {
      assert Ascending(s.joined)[k] in s.joined;
    }
    PublishingHeard(t, actions);
  }

  lemma CommandHeard(s: State, d: Drained, t: State)
    requires forall room :: room in s.joined ==> RoomTopic(room) in t.subscribed
    requires d.command.Leave? ==> d.command.room in s.joined
    ensures Heard(t, ActionsOf(s, d))
  {
    hide RoomTopic, Heard, SyncActions;
    PublishingHeard(t, []);
    match d.command
    case Join(room) => JoinHeard(t, RoomTopic(room));
    case Leave(room) => LeaveHeard(t, RoomTopic(room));
    case SwitchRoom(_) => SyncHeard(Edited(s, d), d.now, t);
    case _ =>
  }

  /** After the actions of a batch's commands a topic is subscribed exactly for the rooms
      its commands left joined. */
  lemma SubscribedAsJoined(s: State, batch: seq<Drained>, t: State, room: string)
    requires InAgreement(s) && t.subscribed == s.subscribed
    ensures RoomTopic(room) in PerformAll(t, AllActions(s, batch)).subscribed <==> room in ProcessAll(s, batch).joined
  {
    hide PerformAll, AllActions, ProcessAll, LastAction, LastDecision, RoomTopic, RoomTopicsOnly, SubscribedRooms;
    CommandsDecide(s, batch);
    ActionsAreRoomTopics(s, batch);
    ActionsFollowDecisions(s, batch, room);
    PerformAllDecides(t, AllActions(s, batch), room);
    SubscribedIff(s.subscribed, room);
  }

  lemma {:induction false} BatchHeard(s: State, batch: seq<Drained>, t: State)
    requires InAgreement(s) && t.subscribed == s.subscribed && LeavesJoined(s, batch)
    ensures Heard(t, AllActions(s, batch))
    decreases batch
  {
    hide PerformAll, ProcessAll, ActionsOf, Heard, RoomTopic, InAgreement;
    if batch == [] {
      PublishingHeard(t, []);
    } else {
      var n := |batch| - 1;
      var init := batch[..n];
      assert forall k :: 0 <= k < n ==> batch[..k] == init[..k] && batch[k] == init[k];
      BatchHeard(s, init, t);
      var u := PerformAll(t, AllActions(s, init));
      forall room | room in ProcessAll(s, init).joined ensures RoomTopic(room) in u.subscribed {
        SubscribedAsJoined(s, init, t, room);
      }
      CommandHeard(ProcessAll(s, init), batch[n], u);
      HeardConcat(t, AllActions(s, init), ActionsOf(ProcessAll(s, init), batch[n]));
    }
  }

  /** Announcements reach their rooms: in a tick that leaves only joined rooms, every join,
      leave and heartbeat is published while the room's topic is subscribed, although the
      subscriptions wait until all commands have run. */
  lemma TickIsHeard(s: State, batch: seq<Drained>, now: Millis)
    requires InAgreement(s) && LeavesJoined(s, batch)
    ensures var t := ProcessAll(s, batch); Heard(Sync(t, now), AllActions(s, batch) + SyncActions(t, now))
  {
    hide PerformAll, ProcessAll, AllActions, SyncActions, Heard, RoomTopic, SubscribedRooms, RunOps;
    var t := ProcessAll(s, batch);
    var v := Sync(t, now);
    CommandsDecide(s, batch);
    BatchHeard(s, batch, v);
    var u := PerformAll(v, AllActions(s, batch));
    forall room | room in t.joined ensures RoomTopic(room) in u.subscribed {
      SubscribedAsJoined(s, batch, v, room);
    }
    SyncHeard(t, now, u);
    HeardConcat(v, AllActions(s, batch), SyncActions(t, now));
  }
}
