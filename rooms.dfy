/** The rooms service: the availability of one room, and the list of rooms
    free for a request. */
module Rooms {
  import opened Common
  import opened Records
  import opened Overlap

  const ROOM_NOT_FOUND := "Room not found"
  const AVAILABLE := "available"

  /** The answer of `GET /api/rooms/:id/availability`. */
  datatype AvailabilityReply =
    | RoomMissing(error: string)
    | StatusOnly(roomId: int, name: string, status: string, available: bool)
    | WindowChecked(roomId: int, name: string, status: string, available: bool,
                    conflicts: nat, bookings: map<int, Booking>)
  {
    function Code(): int
    {
      if RoomMissing? then 404 else 200
    }
  }

  /** `start_time && end_time` for two query parameters. */
  predicate WindowGiven(s: Option<int>, e: Option<int>)
  {
    s.Some? && e.Some?
  }

  /** No live booking of the room meets the window under the three-clause
      test. */
  predicate RoomFree(bookings: map<int, Booking>, room: int, s: int, e: int)
  {
    forall id :: id in bookings ==>
      !(Competes(bookings[id], room) && ThreeClause(bookings[id].startTime, bookings[id].endTime, s, e))
  }

  /** `GET /api/rooms/:id/availability` over the rooms and bookings tables. */
  function Availability(rooms: seq<Room>, bookings: map<int, Booking>, id: int, s: Option<int>, e: Option<int>)
    : (r: AvailabilityReply)
    ensures r.RoomMissing? <==> FindRoom(rooms, id).None?
    ensures r.RoomMissing? ==> r.error == ROOM_NOT_FOUND
    ensures FindRoom(rooms, id).Some? && !WindowGiven(s, e) ==>
      r == StatusOnly(id, FindRoom(rooms, id).value.name, FindRoom(rooms, id).value.status,
                      FindRoom(rooms, id).value.status == AVAILABLE)
    ensures r.WindowChecked? <==> FindRoom(rooms, id).Some? && WindowGiven(s, e)
    ensures r.WindowChecked? ==>
      r.roomId == id && r.name == FindRoom(rooms, id).value.name && r.status == FindRoom(rooms, id).value.status
      && r.conflicts == |r.bookings|
      && r.bookings == RoomConflicts(bookings, id, s.value, e.value, None)
      && (r.available <==> r.status == AVAILABLE && RoomFree(bookings, id, s.value, e.value))
    ensures r.WindowChecked? && s.value < e.value && WellFormed(bookings) ==>
      (r.available <==>
         (r.status == AVAILABLE &&
          forall bid :: bid in bookings ==>
            !(Competes(bookings[bid], id) && HalfOpen(bookings[bid].startTime, bookings[bid].endTime, s.value, e.value))))
  {
    match FindRoom(rooms, id)
    case None => RoomMissing(ROOM_NOT_FOUND)
    case Some(room) =>
      if !WindowGiven(s, e) then
        StatusOnly(room.id, room.name, room.status, room.status == AVAILABLE)
      else
        var conflicts := RoomConflicts(bookings, id, s.value, e.value, None);
        assert conflicts == map[] <==> RoomFree(bookings, id, s.value, e.value) by {
          if !RoomFree(bookings, id, s.value, e.value) {
            var bid :| bid in bookings && Competes(bookings[bid], id)
                       && ThreeClause(bookings[bid].startTime, bookings[bid].endTime, s.value, e.value);
            assert bid in conflicts;
          }
        }
        WindowChecked(room.id, room.name, room.status,
                      room.status == AVAILABLE && |conflicts| == 0, |conflicts|, conflicts)
  }

  /** The query string of `GET /api/rooms/available`. `capacity` is the
      query-string value, so any non-empty value (even "0") filters. */
  datatype AvailableQuery = AvailableQuery(
    startTime: Option<int>,
    endTime: Option<int>,
    capacity: Option<int>,
    roomType: Option<string>)

  /** The WHERE clause built from `status = "available"` plus the optional
      capacity and room-type conditions. */
  predicate Candidate(q: AvailableQuery, r: Room)
  {
    r.status == AVAILABLE
    && (q.capacity.Some? ==> r.capacity >= q.capacity.value)
    && (TextGiven(q.roomType) ==> r.roomType == q.roomType.value)
  }

  /** The rooms the first SELECT returns, in the store's order. */
  function Candidates(rooms: seq<Room>, q: AvailableQuery): (c: seq<Room>)
    ensures forall x :: x in c <==> x in rooms && Candidate(q, x)
    ensures Subsequence(c, rooms)
  {
    Filter(x => Candidate(q, x), rooms)
  }

  /** `conflicts[0].count === 0` for a candidate room. */
  predicate NoConflicts(bookings: map<int, Booking>, s: int, e: int, r: Room)
  {
    |RoomConflicts(bookings, r.id, s, e, None)| == 0
  }

  /** The list the endpoint answers with, as a function of its inputs. */
  function AvailableRoomsSpec(rooms: seq<Room>, bookings: map<int, Booking>, q: AvailableQuery): seq<Room>
  {
    var c := Candidates(rooms, q);
    if WindowGiven(q.startTime, q.endTime)
    then Filter(x => NoConflicts(bookings, q.startTime.value, q.endTime.value, x), c)
    else c
  }

  /** `GET /api/rooms/available`: one SELECT for the candidates, then, when
      both times are given, one COUNT per candidate, keeping the rooms whose
      count is zero. */
  method AvailableRooms(rooms: seq<Room>, bookings: map<int, Booking>, q: AvailableQuery) returns (result: seq<Room>)
    ensures result == AvailableRoomsSpec(rooms, bookings, q)
  {
    result := Candidates(rooms, q);
    if q.startTime.Some? && q.endTime.Some? {
      var s, e := q.startTime.value, q.endTime.value;
      var candidates := result;
      var kept: seq<Room> := [];
      var i := 0;
      while i < |candidates|
        invariant 0 <= i <= |candidates|
        invariant kept == Filter(x => NoConflicts(bookings, s, e, x), candidates[..i])
      {
        var count := |RoomConflicts(bookings, candidates[i].id, s, e, None)|;
        if count == 0 {
          kept := kept + [candidates[i]];
        }
        assert candidates[..i + 1][..i] == candidates[..i];
        i := i + 1;
      }
      assert candidates[..i] == candidates;
      result := kept;
    }
  }

  /** What the list promises: every room in it is available, large enough
      and of the requested type; with a window, a candidate is listed exactly
      when no live booking of it meets the window; the list keeps the order
      of the rooms table. */
  lemma {:induction false} AvailableRoomsMeaning(rooms: seq<Room>, bookings: map<int, Booking>, q: AvailableQuery)
    ensures forall x :: x in AvailableRoomsSpec(rooms, bookings, q) ==>
      x in rooms && x.status == AVAILABLE
      && (q.capacity.Some? ==> x.capacity >= q.capacity.value)
      && (TextGiven(q.roomType) ==> x.roomType == q.roomType.value)
    ensures !WindowGiven(q.startTime, q.endTime) ==>
      forall x :: x in AvailableRoomsSpec(rooms, bookings, q) <==> x in rooms && Candidate(q, x)
    ensures WindowGiven(q.startTime, q.endTime) ==>
      forall x :: x in AvailableRoomsSpec(rooms, bookings, q) <==>
        x in rooms && Candidate(q, x) && RoomFree(bookings, x.id, q.startTime.value, q.endTime.value)
    ensures WindowGiven(q.startTime, q.endTime) ==>
      Subsequence(AvailableRoomsSpec(rooms, bookings, q), Candidates(rooms, q))
    ensures Subsequence(AvailableRoomsSpec(rooms, bookings, q), rooms)
  {
    var c := Candidates(rooms, q);
    var result := AvailableRoomsSpec(rooms, bookings, q);
    if WindowGiven(q.startTime, q.endTime) {
      var s, e := q.startTime.value, q.endTime.value;
      forall x | x in rooms && Candidate(q, x)
        ensures NoConflicts(bookings, s, e, x) <==> RoomFree(bookings, x.id, s, e)
      {
        FreeIffNoConflicts(bookings, x.id, s, e);
      }
      SubsequenceTransitive(result, c, rooms);
    }
  }

  lemma FreeIffNoConflicts(bookings: map<int, Booking>, room: int, s: int, e: int)
    ensures |RoomConflicts(bookings, room, s, e, None)| == 0 <==> RoomFree(bookings, room, s, e)
  {
    var c := RoomConflicts(bookings, room, s, e, None);
    if !RoomFree(bookings, room, s, e) {
      var bid :| bid in bookings && Competes(bookings[bid], room)
                 && ThreeClause(bookings[bid].startTime, bookings[bid].endTime, s, e);
      assert bid in c;
    }
  }

  lemma {:induction false} SubsequenceTransitive<T>(a: seq<T>, b: seq<T>, c: seq<T>)
    requires Subsequence(a, b) && Subsequence(b, c)
    ensures Subsequence(a, c)
    decreases |a| + |b| + |c|
  {
    if a != [] && b != [] && c != [] {
      var a', b', c' := a[..|a| - 1], b[..|b| - 1], c[..|c| - 1];
      if b[|b| - 1] == c[|c| - 1] && Subsequence(b', c') {
        if a[|a| - 1] == b[|b| - 1] && Subsequence(a', b') {
          SubsequenceTransitive(a', b', c');
        } else {
          SubsequenceTransitive(a, b', c');
        }
      } else {
        SubsequenceTransitive(a, b, c');
      }
    }
  }
}
