// Convergence of room merging. Every merge keeps only the newest 48 events and
// the last-seen member records, and yet the order and repetition of snapshots
// does not show in the result: it is determined by the pool of records seen.

module RoomMerge {
  import opened Prelude
  import opened Sorting
  import opened Rooms

  /** Merges one remote snapshot into an existing room. */
  function MergeInto(r: Room, remote: Room): Room {
    Change(Refresh(r), Merge(remote), 0)
  }

  function MergeAll(r: Room, remotes: seq<Room>): Room {
    if remotes == [] then r
    else MergeInto(MergeAll(r, remotes[..|remotes| - 1]), remotes[|remotes| - 1])
  }

  // ---- What a merged room must look like --------------------------------

  /** `history` is the newest 48 of `events`. */
  ghost predicate NewestOf(history: seq<RoomEvent>, events: set<RoomEvent>) {
    && Elements(history) <= events
    && |history| <= ROOM_EVENT_HISTORY_LIMIT
    && forall e :: e in events && e !in history ==>
                     |history| == ROOM_EVENT_HISTORY_LIMIT && forall k :: 0 <= k < |history| ==> e.timestamp < history[k].timestamp
  }

  /** `members` holds, for every peer in `records`, its last-seen record. */
  ghost predicate LatestOf(members: seq<RoomMember>, records: set<RoomMember>) {
    && Elements(members) <= records
    && forall m :: m in records ==> SeenSince(members, m.peerId, m.lastSeen)
  }

  ghost function MembersIn(remotes: seq<Room>): set<RoomMember> {
    set s, m | s in remotes && m in s.members :: m
  }

  ghost function EventsIn(remotes: seq<Room>): set<RoomEvent> {
    set s, e | s in remotes && e in s.history :: e
  }

  /** `t` is the latest of the base time and the snapshots' times. */
  ghost predicate LatestChange(t: Millis, base: Millis, remotes: seq<Room>) {
    && base <= t
    && (forall s :: s in remotes ==> s.lastChanged <= t)
    && (t == base || exists s :: s in remotes && s.lastChanged == t)
  }

  // ---- Pools ------------------------------------------------------------

  datatype Pool = Pool(members: set<RoomMember>, events: set<RoomEvent>)

  /** An event id names one event, no two events share a timestamp, and a peer
      has one record per last-seen time. */
  ghost predicate CoherentEvents(events: set<RoomEvent>) {
    forall e, f :: e in events && f in events && e != f ==> e.eventId != f.eventId && e.timestamp != f.timestamp
  }

  ghost predicate CoherentMembers(members: set<RoomMember>) {
    forall m, n :: m in members && n in members && m.peerId == n.peerId && m.lastSeen == n.lastSeen ==> m == n
  }

  ghost predicate Coherent(pool: Pool) {
    CoherentEvents(pool.events) && CoherentMembers(pool.members)
  }

  ghost predicate DrawnFrom(r: Room, pool: Pool) {
    Elements(r.members) <= pool.members && Elements(r.history) <= pool.events
  }

  ghost predicate AllDrawnFrom(remotes: seq<Room>, pool: Pool) {
    forall k :: 0 <= k < |remotes| ==> DrawnFrom(remotes[k], pool)
  }

  predicate SameContent(a: Room, b: Room) {
    && a.room == b.room && a.joined == b.joined
    && a.members == b.members && a.activeMembers == b.activeMembers
    && a.history == b.history && a.lastChanged == b.lastChanged
  }

  // ---- Events -----------------------------------------------------------

  lemma MergeEventElements(history: seq<RoomEvent>, e: RoomEvent, all: set<RoomEvent>)
    requires CoherentEvents(all) && Elements(history) <= all && e in all
    ensures Elements(MergeEvent(history, e)) == Elements(history) + {e}
  {
    if HasEvent(history, e.eventId) {
      var i :| 0 <= i < |history| && history[i].eventId == e.eventId;
      assert history[i] in Elements(history);
      assert history[i] == e;
    }
  }

  lemma {:induction false} MergeEventsElements(history: seq<RoomEvent>, remote: seq<RoomEvent>, all: set<RoomEvent>)
    requires CoherentEvents(all) && Elements(history) <= all && Elements(remote) <= all
    ensures Elements(MergeEvents(history, remote)) == Elements(history) + Elements(remote)
  {
    if remote != [] {
      var init, e := remote[..|remote| - 1], remote[|remote| - 1];
      assert Elements(remote) == Elements(init) + {e} by { assert remote == init + [e]; }
      MergeEventsElements(history, init, all);
      MergeEventElements(MergeEvents(history, init), e, all);
    }
  }

  predicate Earlier(a: RoomEvent, b: RoomEvent) {
    a.timestamp < b.timestamp
  }

  /** In a coherent pool a history without repeated ids is strictly ascending. */
  lemma StrictlyAscending(history: seq<RoomEvent>, all: set<RoomEvent>)
    requires CoherentEvents(all) && Elements(history) <= all
    requires Sorted(history, NotLater) && AllDifferent(history, SameEventId)
    ensures Sorted(history, Earlier)
  {
    forall i, j | 0 <= i < j < |history| ensures Earlier(history[i], history[j]) {
      assert history[i] in Elements(history) && history[j] in Elements(history);
      assert NotLater(history[i], history[j]) && !SameEventId(history[i], history[j]);
    }
  }

  /** 48 different events cannot all lie strictly above the 48th newest. */
  lemma SomeAtOrBelow(h: seq<RoomEvent>, s: seq<RoomEvent>, k: nat)
    requires AllDifferent(h, SameEventId) && Elements(h) <= Elements(s)
    requires Sorted(s, Earlier) && k < |s| && |h| == |s| - k
    ensures exists x :: x in h && x.timestamp <= s[k].timestamp
  {
    if forall y :: y in h ==> s[k].timestamp < y.timestamp {
      var upper := s[k + 1..];
      forall y | y in Elements(h) ensures y in Elements(upper) {
        assert y in Elements(s);
        var i :| 0 <= i < |s| && s[i] == y;
        assert i > k;
        assert upper[i - k - 1] == y;
      }
      assert forall i, j :: 0 <= i < j < |h| ==> !SameEventId(h[i], h[j]);
      ElementsOfDistinct(h);
      SubsetCardinality(Elements(h), Elements(upper));
      ElementsBounded(upper);
      assert false;
    }
  }

  /** An event lost to an earlier cut is older than the newest 48 of what is left. */
  lemma LostIsOlder(h: seq<RoomEvent>, seen: set<RoomEvent>, s: seq<RoomEvent>, e: RoomEvent)
    requires NewestOf(h, seen) && AllDifferent(h, SameEventId)
    requires Sorted(s, Earlier) && Elements(h) <= Elements(s) && e in seen && e !in h
    ensures |s| >= ROOM_EVENT_HISTORY_LIMIT && e.timestamp < s[|s| - ROOM_EVENT_HISTORY_LIMIT].timestamp
  {
    ElementsOfDistinct(h) by { assert forall i, j :: 0 <= i < j < |h| ==> !SameEventId(h[i], h[j]); }
    SubsetCardinality(Elements(h), Elements(s));
    ElementsBounded(s);
    var k := |s| - ROOM_EVENT_HISTORY_LIMIT;
    SomeAtOrBelow(h, s, k);
    var x :| x in h && x.timestamp <= s[k].timestamp;
    var i :| 0 <= i < |h| && h[i] == x;
    assert e.timestamp < h[i].timestamp;
  }

  /** Truncation does not lose information: the newest 48 of what was kept and
      what arrives is the newest 48 of everything ever seen. */
  lemma TruncationIsHarmless(h: seq<RoomEvent>, seen: set<RoomEvent>, s: seq<RoomEvent>, arrived: set<RoomEvent>)
    requires NewestOf(h, seen) && AllDifferent(h, SameEventId)
    requires Sorted(s, Earlier) && Elements(s) == Elements(h) + arrived
    ensures NewestOf(Newest(s), seen + arrived)
  {
    var t := Newest(s);
    var k := |s| - |t|;
    assert forall j :: 0 <= j < |t| ==> t[j] == s[k + j];
    forall e | e in seen + arrived && e !in t
      ensures |t| == ROOM_EVENT_HISTORY_LIMIT && forall j :: 0 <= j < |t| ==> e.timestamp < t[j].timestamp
    {
      if e in Elements(s) {
        var i :| 0 <= i < |s| && s[i] == e;
        assert i < k;
      } else {
        LostIsOlder(h, seen, s, e);
        assert forall j :: 0 < j < |t| ==> Earlier(t[0], t[j]);
      }
    }
    forall e | e in Elements(t) ensures e in seen + arrived {
      var j :| 0 <= j < |t| && t[j] == e;
      assert s[k + j] in Elements(s);
    }
  }

  lemma NewestUnique(h: seq<RoomEvent>, g: seq<RoomEvent>, all: set<RoomEvent>)
    requires NewestOf(h, all) && NewestOf(g, all)
    requires Sorted(h, Earlier) && Sorted(g, Earlier)
    ensures h == g
  {
    NewestIncluded(h, g, all);
    NewestIncluded(g, h, all);
    AscendingUnique(h, g, Earlier);
  }

  lemma NewestIncluded(h: seq<RoomEvent>, g: seq<RoomEvent>, all: set<RoomEvent>)
    requires NewestOf(h, all) && NewestOf(g, all)
    requires Sorted(h, Earlier) && Sorted(g, Earlier)
    ensures Elements(h) <= Elements(g)
  {
    forall e | e in Elements(h) ensures e in Elements(g) {
      if e !in g {
        assert forall i, j :: 0 <= i < j < |g| ==> Earlier(g[i], g[j]);
        ElementsOfDistinct(g);
        ElementsBounded(h);
        SubsetCardinality(Elements(g), Elements(h) - {e});
        assert false;
      }
    }
  }

  // ---- Members ----------------------------------------------------------

  lemma MergeMemberLatest(members: seq<RoomMember>, m: RoomMember, records: set<RoomMember>)
    requires LatestOf(members, records)
    ensures LatestOf(MergeMember(members, m), records + {m})
  {
    var r := MergeMember(members, m);
    var i := FindPeer(members, m.peerId);
    forall n | n in records + {m} ensures SeenSince(r, n.peerId, n.lastSeen) {
      if n in records {
        assert SeenSince(members, n.peerId, n.lastSeen);
        var w :| w in members && w.peerId == n.peerId && n.lastSeen <= w.lastSeen;
        var k :| 0 <= k < |members| && members[k] == w;
        assert r[k] in r;
      } else {
        assert r[i] in r;
      }
    }
  }

  lemma {:induction false} MergeMembersLatest(members: seq<RoomMember>, remote: seq<RoomMember>, records: set<RoomMember>)
    requires LatestOf(members, records)
    ensures LatestOf(MergeMembers(members, remote), records + Elements(remote))
  {
    if remote != [] {
      var init, m := remote[..|remote| - 1], remote[|remote| - 1];
      assert remote == init + [m];
      ElementsOfSnoc(init, m);
      MergeMembersLatest(members, init, records);
      MergeMemberLatest(MergeMembers(members, init), m, records + Elements(init));
      assert records + Elements(init) + {m} == records + Elements(remote);
    } else {
      assert records + Elements(remote) == records;
    }
  }

  lemma SortLatest(members: seq<RoomMember>, records: set<RoomMember>)
    requires LatestOf(members, records)
    ensures LatestOf(StableSort(members, PeerAtMost), records)
  {
    var s := StableSort(members, PeerAtMost);
    SortElements(members, PeerAtMost);
    forall n | n in records ensures SeenSince(s, n.peerId, n.lastSeen) {
      assert SeenSince(members, n.peerId, n.lastSeen);
      var w :| w in members && w.peerId == n.peerId && n.lastSeen <= w.lastSeen;
      assert w in Elements(s);
    }
  }

  predicate PeerBefore(a: RoomMember, b: RoomMember) {
    Precedes(a.peerId, b.peerId)
  }

  lemma LatestUnique(a: seq<RoomMember>, b: seq<RoomMember>, records: set<RoomMember>)
    requires CoherentMembers(records) && LatestOf(a, records) && LatestOf(b, records)
    requires Sorted(a, PeerAtMost) && AllDifferent(a, SamePeer)
    requires Sorted(b, PeerAtMost) && AllDifferent(b, SamePeer)
    ensures a == b
  {
    LatestIncluded(a, b, records);
    LatestIncluded(b, a, records);
    forall x: RoomMember ensures !PeerBefore(x, x) { PrecedesIrreflexive(x.peerId); }
    forall x: RoomMember, y, z | PeerBefore(x, y) && PeerBefore(y, z) ensures PeerBefore(x, z) {
      PrecedesTransitive(x.peerId, y.peerId, z.peerId);
    }
    PeersStrict(a);
    PeersStrict(b);
    AscendingUnique(a, b, PeerBefore);
  }

  lemma PeersStrict(a: seq<RoomMember>)
    requires Sorted(a, PeerAtMost) && AllDifferent(a, SamePeer)
    ensures Sorted(a, PeerBefore)
  {
    forall i, j | 0 <= i < j < |a| ensures PeerBefore(a[i], a[j]) {
      assert PeerAtMost(a[i], a[j]) && !SamePeer(a[i], a[j]);
    }
  }

  lemma LatestIncluded(a: seq<RoomMember>, b: seq<RoomMember>, records: set<RoomMember>)
    requires CoherentMembers(records) && LatestOf(a, records) && LatestOf(b, records)
    requires AllDifferent(a, SamePeer)
    ensures Elements(a) <= Elements(b)
  {
    forall m | m in Elements(a) ensures m in Elements(b) {
      assert SeenSince(b, m.peerId, m.lastSeen);
      var n :| n in b && n.peerId == m.peerId && m.lastSeen <= n.lastSeen;
      assert n in Elements(b);
      assert SeenSince(a, n.peerId, n.lastSeen);
      var m' :| m' in a && m'.peerId == n.peerId && n.lastSeen <= m'.lastSeen;
      var i :| 0 <= i < |a| && a[i] == m;
      var j :| 0 <= j < |a| && a[j] == m';
      assert i == j by {
        assert i < j ==> !SamePeer(a[i], a[j]);
        assert j < i ==> !SamePeer(a[j], a[i]);
      }
      assert m in records && n in records;
    }
  }

  // ---- One merge, many merges -------------------------------------------

  /** The room holds exactly what these records call for. */
  ghost predicate Summarises(r: Room, records: set<RoomMember>, events: set<RoomEvent>) {
    ValidRoom(r) && LatestOf(r.members, records) && NewestOf(r.history, events)
  }

  lemma MergeIntoValid(r: Room, remote: Room)
    requires ValidRoom(r)
    ensures ValidRoom(MergeInto(r, remote))
    ensures MergeInto(r, remote).history == MergedHistory(r.history, remote.history)
    ensures MergeInto(r, remote).members == MergedMembers(r.members, remote.members)
  {
    RefreshIsIdentity(r);
    ChangeKeepsValid(Refresh(r), Merge(remote), 0);
  }

  function MergedHistory(history: seq<RoomEvent>, remote: seq<RoomEvent>): seq<RoomEvent> {
    Newest(StableSort(MergeEvents(history, remote), NotLater))
  }

  function MergedMembers(members: seq<RoomMember>, remote: seq<RoomMember>): seq<RoomMember> {
    StableSort(MergeMembers(members, remote), PeerAtMost)
  }

  lemma MergedHistoryNewest(history: seq<RoomEvent>, remote: seq<RoomEvent>, events: set<RoomEvent>)
    requires NewestOf(history, events) && AllDifferent(history, SameEventId)
    requires CoherentEvents(events + Elements(remote))
    ensures NewestOf(MergedHistory(history, remote), events + Elements(remote))
  {
    var all, merged := events + Elements(remote), MergeEvents(history, remote);
    var s := StableSort(merged, NotLater);
    MergeEventsElements(history, remote, all);
    MergeEventsDifferent(history, remote);
    SortElements(merged, NotLater);
    SortSorted(merged, NotLater);
    SortAllDifferent(merged, NotLater, SameEventId);
    StrictlyAscending(s, all);
    TruncationIsHarmless(history, events, s, Elements(remote));
  }

  lemma MergeSummarises(r: Room, remote: Room, records: set<RoomMember>, events: set<RoomEvent>)
    requires Summarises(r, records, events)
    requires CoherentEvents(events + Elements(remote.history))
    ensures Summarises(MergeInto(r, remote), records + Elements(remote.members), events + Elements(remote.history))
  {
    MergeIntoValid(r, remote);
    MergeMembersLatest(r.members, remote.members, records);
    SortLatest(MergeMembers(r.members, remote.members), records + Elements(remote.members));
    MergedHistoryNewest(r.history, remote.history, events);
  }

  /** Any finite sequence of merges leaves, for each peer, its last-seen record
      and exactly the newest 48 of all events, although every merge truncates. */
  lemma {:induction false} MergeAllSummarises(r: Room, remotes: seq<Room>)
    requires ValidRoom(r) && CoherentEvents(Elements(r.history) + EventsIn(remotes))
    ensures Summarises(MergeAll(r, remotes), Elements(r.members) + MembersIn(remotes), Elements(r.history) + EventsIn(remotes))
  {
    if remotes == [] {
      assert LatestOf(r.members, Elements(r.members));
      assert Elements(r.members) + MembersIn(remotes) == Elements(r.members);
      assert Elements(r.history) + EventsIn(remotes) == Elements(r.history);
    } else {
      var init, last := remotes[..|remotes| - 1], remotes[|remotes| - 1];
      assert remotes == init + [last];
      assert EventsIn(remotes) == EventsIn(init) + Elements(last.history);
      assert MembersIn(remotes) == MembersIn(init) + Elements(last.members);
      MergeAllSummarises(r, init);
      var records, events := Elements(r.members) + MembersIn(init), Elements(r.history) + EventsIn(init);
      assert events + Elements(last.history) == Elements(r.history) + EventsIn(remotes);
      assert records + Elements(last.members) == Elements(r.members) + MembersIn(remotes);
      MergeSummarises(MergeAll(r, init), last, records, events);
    }
  }

  lemma MergeIntoHeader(r: Room, remote: Room)
    ensures var m := MergeInto(r, remote);
            && m.room == r.room && m.joined == r.joined
            && m.lastChanged == (if r.lastChanged < remote.lastChanged then remote.lastChanged else r.lastChanged)
            && (r.room != "" ==> m.roomId == OrElse(r.roomId, r.room) && m.roomName == OrElse(r.roomName, r.room))
  {
  }

  lemma {:induction false} MergeAllHeader(r: Room, remotes: seq<Room>)
    ensures MergeAll(r, remotes).room == r.room && MergeAll(r, remotes).joined == r.joined
    ensures r.room != "" && remotes != [] ==>
              MergeAll(r, remotes).roomId == OrElse(r.roomId, r.room) && MergeAll(r, remotes).roomName == OrElse(r.roomName, r.room)
  {
    if remotes != [] {
      var init, last := remotes[..|remotes| - 1], remotes[|remotes| - 1];
      MergeAllHeader(r, init);
      MergeIntoHeader(MergeAll(r, init), last);
    }
  }

  lemma LatestChangeStep(t: Millis, base: Millis, init: seq<Room>, last: Room)
    requires LatestChange(t, base, init)
    ensures LatestChange(if t < last.lastChanged then last.lastChanged else t, base, init + [last])
  {
    assert last in init + [last] && forall s :: s in init ==> s in init + [last];
  }

  lemma NothingChanged(base: Millis)
    ensures LatestChange(base, base, [])
  {
  }

  lemma {:induction false} MergeAllChanged(r: Room, remotes: seq<Room>)
    ensures LatestChange(MergeAll(r, remotes).lastChanged, r.lastChanged, remotes)
  {
    hide MergeInto, LatestChange;
    if remotes == [] {
      NothingChanged(r.lastChanged);
    } else {
      var init, last := remotes[..|remotes| - 1], remotes[|remotes| - 1];
      MergeAllChanged(r, init);
      MergeIntoHeader(MergeAll(r, init), last);
      LatestChangeStep(MergeAll(r, init).lastChanged, r.lastChanged, init, last);
      assert init + [last] == remotes;
    }
  }

  lemma SameSnapshots(left: seq<Room>, right: seq<Room>)
    requires Elements(left) == Elements(right)
    ensures EventsIn(left) == EventsIn(right) && MembersIn(left) == MembersIn(right)
    ensures left == [] <==> right == []
    ensures forall s :: s in left <==> s in right
  {
    assert forall s :: s in left <==> s in Elements(left);
    assert forall s :: s in right <==> s in Elements(right);
    if left == [] && right != [] { HeadIsElement(right); }
    if right == [] && left != [] { HeadIsElement(left); }
  }

  lemma ChangeTimesAgree(r: Room, left: seq<Room>, right: seq<Room>)
    requires Elements(left) == Elements(right)
    ensures MergeAll(r, left).lastChanged == MergeAll(r, right).lastChanged
  {
    SameSnapshots(left, right);
    MergeAllChanged(r, left);
    MergeAllChanged(r, right);
  }

  lemma RecordsAgree(r: Room, left: seq<Room>, right: seq<Room>)
    requires ValidRoom(r) && Elements(left) == Elements(right)
    requires CoherentEvents(Elements(r.history) + EventsIn(left))
    requires CoherentMembers(Elements(r.members) + MembersIn(left))
    ensures MergeAll(r, left).history == MergeAll(r, right).history
    ensures MergeAll(r, left).members == MergeAll(r, right).members
    ensures ValidRoom(MergeAll(r, left)) && ValidRoom(MergeAll(r, right))
  {
    SameSnapshots(left, right);
    var events, records := Elements(r.history) + EventsIn(left), Elements(r.members) + MembersIn(left);
    MergeAllSummarises(r, left);
    MergeAllSummarises(r, right);
    var a, b := MergeAll(r, left), MergeAll(r, right);
    StrictlyAscending(a.history, events);
    StrictlyAscending(b.history, events);
    NewestUnique(a.history, b.history, events);
    LatestUnique(a.members, b.members, records);
  }

  /** Merging converges: two sequences of remote snapshots with the same set of
      snapshots, in any order and with any repetition, give the same members,
      history, active count and last-changed time. */
  lemma MergeConverges(r: Room, left: seq<Room>, right: seq<Room>)
    requires ValidRoom(r) && Elements(left) == Elements(right)
    requires CoherentEvents(Elements(r.history) + EventsIn(left))
    requires CoherentMembers(Elements(r.members) + MembersIn(left))
    ensures SameContent(MergeAll(r, left), MergeAll(r, right))
    ensures r.room != "" ==> MergeAll(r, left) == MergeAll(r, right)
  {
    RecordsAgree(r, left, right);
    ChangeTimesAgree(r, left, right);
    SameSnapshots(left, right);
    MergeAllHeader(r, left);
    MergeAllHeader(r, right);
  }

  /** Merging a snapshot a second time changes nothing in the room. */
  lemma MergeIdempotent(r: Room, remote: Room)
    requires ValidRoom(r) && CoherentEvents(Elements(r.history) + Elements(remote.history))
    requires CoherentMembers(Elements(r.members) + Elements(remote.members))
    ensures SameContent(MergeInto(MergeInto(r, remote), remote), MergeInto(r, remote))
  {
    MergeTwo(r, remote, remote);
    OnceAndTwice(remote);
    MergeConverges(r, [remote], [remote, remote]);
  }

  lemma OnceAndTwice(remote: Room)
    ensures Elements([remote]) == Elements([remote, remote])
    ensures EventsIn([remote]) == Elements(remote.history) && MembersIn([remote]) == Elements(remote.members)
  {
    assert Elements([remote]) == {remote} == Elements([remote, remote]);
  }

  // ---- The whole rooms state --------------------------------------------

  datatype Arrival = Arrival(remote: Room, now: Millis)

  /** Merges snapshots as they arrive from the network. */
  function Arrive(st: RoomsState, arrivals: seq<Arrival>): RoomsState {
    if arrivals == [] then st
    else
      var last := arrivals[|arrivals| - 1];
      Apply(Arrive(st, arrivals[..|arrivals| - 1]), Merge(last.remote), last.now)
  }

  /** The snapshots among `arrivals` that are about `name`, in order. */
  function About(arrivals: seq<Arrival>, name: string): seq<Room> {
    if arrivals == [] then []
    else
      About(arrivals[..|arrivals| - 1], name)
      + if arrivals[|arrivals| - 1].remote.room == name then [arrivals[|arrivals| - 1].remote] else []
  }

  predicate KnownRooms(st: RoomsState, arrivals: seq<Arrival>) {
    forall k :: 0 <= k < |arrivals| ==> FindRoom(st.rooms, arrivals[k].remote.room) < |st.rooms|
  }

  lemma UniqueRoomFound(rooms: seq<Room>, i: nat)
    requires AllDifferent(rooms, SameRoom) && i < |rooms|
    ensures FindRoom(rooms, rooms[i].room) == i
  {
    var j := FindRoom(rooms, rooms[i].room);
    assert j < i ==> !SameRoom(rooms[j], rooms[i]);
  }

  /** `after` is `before` with `remote` merged into the room it names. */
  ghost predicate MergedOne(before: RoomsState, remote: Room, after: RoomsState) {
    && Valid(after)
    && |after.rooms| == |before.rooms|
    && after.currentRoom == before.currentRoom
    && forall i :: 0 <= i < |before.rooms| ==>
         after.rooms[i] == if before.rooms[i].room == remote.room then MergeInto(before.rooms[i], remote) else before.rooms[i]
  }

  lemma ApplyMergesOne(st: RoomsState, remote: Room, now: Millis)
    requires Valid(st) && FindRoom(st.rooms, remote.room) < |st.rooms|
    ensures MergedOne(st, remote, Apply(st, Merge(remote), now))
  {
    var target := FindRoom(st.rooms, remote.room);
    ApplyKeepsValid(st, Merge(remote), now);
    var after := Apply(st, Merge(remote), now);
    assert after.rooms == st.rooms[target := MergeInto(st.rooms[target], remote)];
    forall i | 0 <= i < |st.rooms| && st.rooms[i].room == remote.room ensures i == target {
      UniqueRoomFound(st.rooms, i);
    }
  }

  ghost predicate RoomAgrees(base: Room, arrivals: seq<Arrival>, merged: Room) {
    merged.room == base.room && merged == MergeAll(base, About(arrivals, base.room))
  }

  ghost predicate Roomwise(st: RoomsState, arrivals: seq<Arrival>, after: RoomsState) {
    && Valid(after)
    && |after.rooms| == |st.rooms|
    && after.currentRoom == st.currentRoom
    && forall i :: 0 <= i < |st.rooms| ==> RoomAgrees(st.rooms[i], arrivals, after.rooms[i])
  }

  lemma RoomAgreesStep(base: Room, init: seq<Arrival>, before: Room, last: Arrival, after: Room)
    requires RoomAgrees(base, init, before)
    requires after == if before.room == last.remote.room then MergeInto(before, last.remote) else before
    ensures RoomAgrees(base, init + [last], after)
  {
    AboutSnoc(init, last, base.room);
    if base.room == last.remote.room {
      MergeAllSnoc(base, About(init, base.room), last.remote);
      MergeIntoHeader(before, last.remote);
    }
  }

  lemma RoomwiseStep(st: RoomsState, init: seq<Arrival>, before: RoomsState, last: Arrival, after: RoomsState)
    requires Roomwise(st, init, before) && MergedOne(before, last.remote, after)
    ensures Roomwise(st, init + [last], after)
  {
    forall i | 0 <= i < |st.rooms| ensures RoomAgrees(st.rooms[i], init + [last], after.rooms[i]) {
      RoomAgreesStep(st.rooms[i], init, before.rooms[i], last, after.rooms[i]);
    }
  }

  lemma AboutSnoc(init: seq<Arrival>, last: Arrival, name: string)
    ensures last.remote.room == name ==> About(init + [last], name) == About(init, name) + [last.remote]
    ensures last.remote.room != name ==> About(init + [last], name) == About(init, name)
  {
    assert (init + [last])[..|init|] == init;
  }

  lemma MergeAllSnoc(r: Room, init: seq<Room>, last: Room)
    ensures MergeAll(r, init + [last]) == MergeInto(MergeAll(r, init), last)
  {
    assert (init + [last])[..|init|] == init;
  }

  lemma ArriveMergesOne(st: RoomsState, init: seq<Arrival>, last: Arrival)
    requires Valid(st) && KnownRooms(st, init + [last]) && Roomwise(st, init, Arrive(st, init))
    ensures MergedOne(Arrive(st, init), last.remote, Arrive(st, init + [last]))
  {
    var before, target := Arrive(st, init), FindRoom(st.rooms, last.remote.room);
    assert (init + [last])[..|init|] == init && (init + [last])[|init|] == last;
    assert RoomAgrees(st.rooms[target], init, before.rooms[target]);
    ApplyMergesOne(before, last.remote, last.now);
  }

  lemma NothingArrives(st: RoomsState)
    requires Valid(st)
    ensures Roomwise(st, [], Arrive(st, []))
  {
  }

  /** Arrivals act on each room separately: every room has merged, in order,
      exactly the snapshots that name it, and the set of rooms is untouched. */
  lemma {:induction false} ArriveRoomwise(st: RoomsState, arrivals: seq<Arrival>)
    requires Valid(st) && KnownRooms(st, arrivals)
    ensures Roomwise(st, arrivals, Arrive(st, arrivals))
  {
    hide Roomwise, MergedOne, Valid;
    if arrivals == [] {
      NothingArrives(st);
    } else {
      var init, last := arrivals[..|arrivals| - 1], arrivals[|arrivals| - 1];
      assert init + [last] == arrivals;
      ArriveRoomwise(st, init);
      ArriveMergesOne(st, init, last);
      RoomwiseStep(st, init, Arrive(st, init), last, Arrive(st, arrivals));
    }
  }

  ghost function Remotes(arrivals: seq<Arrival>): set<Room> {
    set a | a in arrivals :: a.remote
  }

  lemma {:induction false} AboutElements(arrivals: seq<Arrival>, name: string)
    ensures Elements(About(arrivals, name)) == set s | s in Remotes(arrivals) && s.room == name
  {
    if arrivals != [] {
      var init, last := arrivals[..|arrivals| - 1], arrivals[|arrivals| - 1];
      AboutElements(init, name);
      ElementsOfConcat(About(init, name), if last.remote.room == name then [last.remote] else []);
      assert Remotes(arrivals) == Remotes(init) + {last.remote} by { assert arrivals == init + [last]; }
    }
  }

  /** Two nodes that know the same rooms and receive the same snapshots, in any
      order and however often, hold the same content in every room. */
  lemma StateMergeConverges(st: RoomsState, left: seq<Arrival>, right: seq<Arrival>, i: nat)
    requires Valid(st) && i < |st.rooms|
    requires KnownRooms(st, left) && KnownRooms(st, right) && Remotes(left) == Remotes(right)
    requires CoherentEvents(Elements(st.rooms[i].history) + EventsIn(About(left, st.rooms[i].room)))
    requires CoherentMembers(Elements(st.rooms[i].members) + MembersIn(About(left, st.rooms[i].room)))
    ensures |Arrive(st, left).rooms| == |Arrive(st, right).rooms| == |st.rooms|
    ensures SameContent(Arrive(st, left).rooms[i], Arrive(st, right).rooms[i])
    ensures Arrive(st, left).currentRoom == Arrive(st, right).currentRoom
  {
    var name := st.rooms[i].room;
    ArriveRoomwise(st, left);
    ArriveRoomwise(st, right);
    AboutElements(left, name);
    AboutElements(right, name);
    MergeConverges(st.rooms[i], About(left, name), About(right, name));
  }

  // ---- Exactly when order does not matter -------------------------------

  /** Whatever room and snapshots are drawn from the pool, neither order nor
      repetition of the snapshots shows in the merged room. */
  ghost predicate OrderIndependent(pool: Pool) {
    forall r, left, right ::
      ValidRoom(r) && DrawnFrom(r, pool) && AllDrawnFrom(left, pool) && AllDrawnFrom(right, pool)
      && Elements(left) == Elements(right)
      ==> SameContent(MergeAll(r, left), MergeAll(r, right))
  }

  function Blank(): Room {
    Room("room", false, [], "room", "room", 0, [], 0)
  }

  function EventSnapshot(e: RoomEvent): Room {
    Blank().(history := [e])
  }

  function MemberSnapshot(m: RoomMember): Room {
    Blank().(members := [m])
  }

  lemma BlankValid()
    ensures ValidRoom(Blank()) && Refresh(Blank()) == Blank()
  {
    RefreshIsIdentity(Blank());
  }

  lemma MergeTwo(r: Room, a: Room, b: Room)
    ensures MergeAll(r, [a]) == MergeInto(r, a)
    ensures MergeAll(r, [a, b]) == MergeInto(MergeInto(r, a), b)
  {
    assert [a, b][..1] == [a] && [a][..0] == [];
    assert MergeAll(r, [a]) == MergeInto(r, a);
  }

  lemma MergeEventsOne(history: seq<RoomEvent>, e: RoomEvent)
    ensures MergeEvents(history, [e]) == MergeEvent(history, e)
  {
    assert [e][..0] == [];
  }

  lemma MergeMembersOne(members: seq<RoomMember>, m: RoomMember)
    ensures MergeMembers(members, [m]) == MergeMember(members, m)
  {
    assert [m][..0] == [];
  }

  lemma FirstEvent(e: RoomEvent)
    ensures ValidRoom(MergeInto(Blank(), EventSnapshot(e))) && MergeInto(Blank(), EventSnapshot(e)).history == [e]
  {
    BlankValid();
    MergeIntoValid(Blank(), EventSnapshot(e));
    MergeEventsOne([], e);
    SortOfSorted([e], NotLater);
  }

  lemma SecondEvent(r: Room, e: RoomEvent, f: RoomEvent)
    requires ValidRoom(r) && r.history == [e] && e != f
    requires e.eventId == f.eventId || e.timestamp == f.timestamp
    ensures MergeInto(r, EventSnapshot(f)).history == if e.eventId == f.eventId then [e] else [e, f]
  {
    MergeIntoValid(r, EventSnapshot(f));
    MergedPair(e, f);
  }

  lemma MergedPair(e: RoomEvent, f: RoomEvent)
    requires e != f
    requires e.eventId == f.eventId || e.timestamp == f.timestamp
    ensures MergedHistory([e], [f]) == if e.eventId == f.eventId then [e] else [e, f]
  {
    MergeEventsOne([e], f);
    var merged := MergeEvents([e], [f]);
    assert [e][0] == e;
    assert merged == if e.eventId == f.eventId then [e] else [e, f];
    SortOfSorted(merged, NotLater);
  }

  lemma TwoEventSnapshots(e: RoomEvent, f: RoomEvent)
    requires e != f
    requires e.eventId == f.eventId || e.timestamp == f.timestamp
    ensures MergeAll(Blank(), [EventSnapshot(e), EventSnapshot(f)]).history == if e.eventId == f.eventId then [e] else [e, f]
  {
    FirstEvent(e);
    MergeTwo(Blank(), EventSnapshot(e), EventSnapshot(f));
    SecondEvent(MergeInto(Blank(), EventSnapshot(e)), e, f);
  }

  lemma MergedMembersPair(m: RoomMember, n: RoomMember)
    requires m.peerId == n.peerId && m.lastSeen == n.lastSeen
    ensures MergedMembers([], [m]) == [m] && MergedMembers([m], [n]) == [n]
  {
    MergeMembersOne([], m);
    SortOfSorted([m], PeerAtMost);
    MergeMembersOne([m], n);
    SortOfSorted([n], PeerAtMost);
  }

  lemma TwoMemberSnapshots(m: RoomMember, n: RoomMember)
    requires m.peerId == n.peerId && m.lastSeen == n.lastSeen
    ensures MergeAll(Blank(), [MemberSnapshot(m), MemberSnapshot(n)]).members == [n]
  {
    BlankValid();
    MergedMembersPair(m, n);
    MergeTwo(Blank(), MemberSnapshot(m), MemberSnapshot(n));
    MergeIntoValid(Blank(), MemberSnapshot(m));
    MergeIntoValid(MergeInto(Blank(), MemberSnapshot(m)), MemberSnapshot(n));
  }

  /** Two sequences of the same snapshots that merge differently refute order independence. */
  lemma OrdersRefute(pool: Pool, r: Room, left: seq<Room>, right: seq<Room>)
    requires ValidRoom(r) && DrawnFrom(r, pool) && AllDrawnFrom(left, pool) && AllDrawnFrom(right, pool)
    requires Elements(left) == Elements(right)
    requires !SameContent(MergeAll(r, left), MergeAll(r, right))
    ensures !OrderIndependent(pool)
  {
  }

  lemma SwapDrawn(pool: Pool, a: Room, b: Room)
    requires DrawnFrom(a, pool) && DrawnFrom(b, pool)
    ensures AllDrawnFrom([a, b], pool) && Elements([a, b]) == Elements([b, a])
  {
    assert Elements([a, b]) == {a, b};
    assert Elements([b, a]) == {a, b};
  }

  lemma SwapRefutes(pool: Pool, r: Room, a: Room, b: Room)
    requires ValidRoom(r) && DrawnFrom(r, pool) && DrawnFrom(a, pool) && DrawnFrom(b, pool)
    requires !SameContent(MergeAll(r, [a, b]), MergeAll(r, [b, a]))
    ensures !OrderIndependent(pool)
  {
    SwapDrawn(pool, a, b);
    SwapDrawn(pool, b, a);
    OrdersRefute(pool, r, [a, b], [b, a]);
  }

  lemma EventsDrawn(pool: Pool, e: RoomEvent)
    requires e in pool.events
    ensures DrawnFrom(EventSnapshot(e), pool) && DrawnFrom(Blank(), pool)
  {
  }

  lemma MembersDrawn(pool: Pool, m: RoomMember)
    requires m in pool.members
    ensures DrawnFrom(MemberSnapshot(m), pool) && DrawnFrom(Blank(), pool)
  {
  }

  lemma IncoherentEventsDiverge(pool: Pool, e: RoomEvent, f: RoomEvent)
    requires e in pool.events && f in pool.events && e != f
    requires e.eventId == f.eventId || e.timestamp == f.timestamp
    ensures !OrderIndependent(pool)
  {
    hide MergeAll, OrderIndependent, DrawnFrom, ValidRoom, Refresh;
    TwoEventSnapshots(e, f);
    TwoEventSnapshots(f, e);
    EventsDrawn(pool, e);
    EventsDrawn(pool, f);
    var one, two := if e.eventId == f.eventId then [e] else [e, f], if e.eventId == f.eventId then [f] else [f, e];
    assert one[0] != two[0];
    BlankValid();
    SwapRefutes(pool, Blank(), EventSnapshot(e), EventSnapshot(f));
  }

  lemma IncoherentMembersDiverge(pool: Pool, m: RoomMember, n: RoomMember)
    requires m in pool.members && n in pool.members && m != n
    requires m.peerId == n.peerId && m.lastSeen == n.lastSeen
    ensures !OrderIndependent(pool)
  {
    hide MergeAll, OrderIndependent, DrawnFrom, ValidRoom, Refresh;
    TwoMemberSnapshots(m, n);
    TwoMemberSnapshots(n, m);
    MembersDrawn(pool, m);
    MembersDrawn(pool, n);
    assert [m][0] != [n][0];
    BlankValid();
    SwapRefutes(pool, Blank(), MemberSnapshot(m), MemberSnapshot(n));
  }

  lemma PoolCoversSnapshots(r: Room, remotes: seq<Room>, pool: Pool)
    requires Coherent(pool) && DrawnFrom(r, pool) && AllDrawnFrom(remotes, pool)
    ensures CoherentEvents(Elements(r.history) + EventsIn(remotes))
    ensures CoherentMembers(Elements(r.members) + MembersIn(remotes))
  {
    forall e | e in EventsIn(remotes) ensures e in pool.events {
      var s :| s in remotes && e in s.history;
      var k :| 0 <= k < |remotes| && remotes[k] == s;
      assert DrawnFrom(remotes[k], pool) && e in Elements(s.history);
    }
    forall m | m in MembersIn(remotes) ensures m in pool.members {
      var s :| s in remotes && m in s.members;
      var k :| 0 <= k < |remotes| && remotes[k] == s;
      assert DrawnFrom(remotes[k], pool) && m in Elements(s.members);
    }
  }

  /** Exactly the coherent pools merge independently of order: distinct event ids
      and timestamps, and one member record per peer and last-seen time. */
  lemma OrderIndependentIffCoherent(pool: Pool)
    ensures OrderIndependent(pool) <==> Coherent(pool)
  {
    if Coherent(pool) {
      forall r, left, right
        | ValidRoom(r) && DrawnFrom(r, pool) && AllDrawnFrom(left, pool) && AllDrawnFrom(right, pool)
          && Elements(left) == Elements(right)
        ensures SameContent(MergeAll(r, left), MergeAll(r, right))
      {
        PoolCoversSnapshots(r, left, pool);
        MergeConverges(r, left, right);
      }
    } else if !CoherentEvents(pool.events) {
      var e, f :| e in pool.events && f in pool.events && e != f && (e.eventId == f.eventId || e.timestamp == f.timestamp);
      IncoherentEventsDiverge(pool, e, f);
    } else {
      var m, n :| m in pool.members && n in pool.members && m.peerId == n.peerId && m.lastSeen == n.lastSeen && m != n;
      IncoherentMembersDiverge(pool, m, n);
    }
  }
}
