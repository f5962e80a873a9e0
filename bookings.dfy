/** The bookings service: the mutation guard around create and update, the
    hard delete, the conflict probe, and the order in which its GET routes
    are registered. */
module Bookings {
  import opened Common
  import opened Records
  import opened Overlap

  const MISSING_FIELDS := "Room ID, title, start time, and end time are required"
  const BAD_RANGE := "End time must be after start time"
  const ROOM_NOT_FOUND := "Room not found"
  const ROOM_TAKEN := "Room is already booked for this time slot"
  const BOOKING_NOT_FOUND := "Booking not found"
  const NO_FIELDS := "No fields to update"
  const PROBE_MISSING := "Room ID, start time, and end time are required"
  const DEFAULT_STATUS := "pending"

  /** The body of `POST /api/bookings`. */
  datatype NewBooking = NewBooking(
    roomId: Option<int>,
    activityId: Option<int>,
    title: Option<string>,
    description: Option<string>,
    startTime: Option<int>,
    endTime: Option<int>,
    status: Option<string>,
    createdBy: Option<int>)

  /** The body of `PUT /api/bookings/:id`. For `activityId` and
      `description` the outer `None` is "undefined" and `Some(None)` is an
      explicit null, which the handler does write. */
  datatype Patch = Patch(
    roomId: Option<int>,
    activityId: Option<Option<int>>,
    title: Option<string>,
    description: Option<Option<string>>,
    startTime: Option<int>,
    endTime: Option<int>,
    status: Option<string>)

  /** What a write request gets back, with its HTTP status. */
  datatype Reply =
    | Created(id: int, row: Booking)
    | Updated(id: int, row: Booking)
    | Deleted
    | BadRequest(error: string)
    | NotFound(error: string)
    | Conflict(error: string, conflicts: map<int, Booking>)
  {
    function Code(): int
    {
      match this
      case Created(_, _) => 201
      case Updated(_, _) => 200
      case Deleted => 200
      case BadRequest(_) => 400
      case NotFound(_) => 404
      case Conflict(_, _) => 409
    }
  }

  /** `room_id && title && start_time && end_time`. */
  predicate Complete(req: NewBooking)
  {
    IdGiven(req.roomId) && TextGiven(req.title) && req.startTime.Some? && req.endTime.Some?
  }

  /** `new Date(start_time) >= new Date(end_time)` fails for a complete request. */
  predicate RangeOk(req: NewBooking)
    requires Complete(req)
  {
    req.startTime.value < req.endTime.value
  }

  /** The row the INSERT writes: the request's fields, status `pending`
      unless a non-empty status was sent. */
  function NewRow(req: NewBooking): (b: Booking)
    requires Complete(req)
    ensures b.roomId == req.roomId.value && b.title == req.title.value
    ensures b.startTime == req.startTime.value && b.endTime == req.endTime.value
    ensures b.activityId == req.activityId && b.description == req.description && b.createdBy == req.createdBy
    ensures b.status == if TextGiven(req.status) then req.status.value else DEFAULT_STATUS
    ensures b.status != ""
  {
    Booking(req.roomId.value, req.activityId, req.title.value, req.description,
            req.startTime.value, req.endTime.value,
            if TextGiven(req.status) then req.status.value else DEFAULT_STATUS,
            req.createdBy)
  }

  /** `room_id || start_time || end_time`: the patch touches the schedule. */
  predicate MovesSchedule(p: Patch)
  {
    IdGiven(p.roomId) || p.startTime.Some? || p.endTime.Some?
  }

  /** `room_id || existing.room_id` and the same for the two times. */
  function EffectiveRoom(b: Booking, p: Patch): int
  {
    if IdGiven(p.roomId) then p.roomId.value else b.roomId
  }

  function EffectiveStart(b: Booking, p: Patch): int
  {
    if p.startTime.Some? then p.startTime.value else b.startTime
  }

  function EffectiveEnd(b: Booking, p: Patch): int
  {
    if p.endTime.Some? then p.endTime.value else b.endTime
  }

  /** The `updates` array stays empty. */
  predicate WritesNothing(p: Patch)
  {
    !IdGiven(p.roomId) && p.activityId.None? && !TextGiven(p.title) && p.description.None?
    && p.startTime.None? && p.endTime.None? && !TextGiven(p.status)
  }

  /** The sparse `UPDATE bookings SET ...`: room, title, times and status
      are written only when truthy; activity and description whenever they
      are defined (null included); every other column is kept. */
  function ApplyPatch(b: Booking, p: Patch): (r: Booking)
    ensures r.roomId == EffectiveRoom(b, p)
    ensures r.startTime == EffectiveStart(b, p) && r.endTime == EffectiveEnd(b, p)
    ensures TextGiven(p.title) ==> r.title == p.title.value
    ensures !TextGiven(p.title) ==> r.title == b.title
    ensures TextGiven(p.status) ==> r.status == p.status.value
    ensures !TextGiven(p.status) ==> r.status == b.status
    ensures p.activityId.Some? ==> r.activityId == p.activityId.value
    ensures p.activityId.None? ==> r.activityId == b.activityId
    ensures p.description.Some? ==> r.description == p.description.value
    ensures p.description.None? ==> r.description == b.description
    ensures r.createdBy == b.createdBy
    ensures WritesNothing(p) ==> r == b
  {
    Booking(
      EffectiveRoom(b, p),
      if p.activityId.Some? then p.activityId.value else b.activityId,
      if TextGiven(p.title) then p.title.value else b.title,
      if p.description.Some? then p.description.value else b.description,
      EffectiveStart(b, p),
      EffectiveEnd(b, p),
      if TextGiven(p.status) then p.status.value else b.status,
      b.createdBy)
  }

  /** Applying the same patch twice changes nothing the first application
      did not. */
  lemma ApplyPatchIdempotent(b: Booking, p: Patch)
    ensures ApplyPatch(ApplyPatch(b, p), p) == ApplyPatch(b, p)
  {
  }

  /** A patch that does not touch the schedule leaves room and times as
      stored, so the guard has nothing to re-check. */
  lemma StillScheduleKeepsWindow(b: Booking, p: Patch)
    requires !MovesSchedule(p)
    ensures ApplyPatch(b, p).roomId == b.roomId
    ensures ApplyPatch(b, p).startTime == b.startTime && ApplyPatch(b, p).endTime == b.endTime
  {
  }

  /** The patch brings a cancelled booking back to a live status. */
  predicate Revives(b: Booking, p: Patch)
  {
    b.status == CANCELLED && ApplyPatch(b, p).status != CANCELLED
  }

  /** A status-only update skips the conflict check, so bringing a
      cancelled booking back can double-book its room: here booking 2 was
      cancelled and booking 1 took its slot. */
  lemma RevivalCanDoubleBook()
    ensures exists m: map<int, Booking>, p: Patch ::
      1 in m && 2 in m && WellFormed(m) && NoDoubleBooking(m) && !MovesSchedule(p) && !WritesNothing(p)
      && !NoDoubleBooking(m[2 := ApplyPatch(m[2], p)])
  {
    var live := Booking(1, None, "Math", None, 10, 11, "confirmed", None);
    var gone := live.(status := CANCELLED);
    var m := map[1 := live, 2 := gone];
    var p := Patch(None, None, None, None, None, None, Some("confirmed"));
    assert NoDoubleBooking(m) by {
      forall i, j | i in m && j in m && i != j
        ensures !Clash(m[i], m[j])
      {
        assert m[i] == gone || m[j] == gone;
      }
    }
    var m' := m[2 := ApplyPatch(m[2], p)];
    assert Clash(m'[1], m'[2]);
    assert !NoDoubleBooking(m');
    assert 1 in m && 2 in m && WellFormed(m) && !MovesSchedule(p) && !WritesNothing(p);
  }

  /** The bookings table and its AUTO_INCREMENT counter. */
  class BookingStore {
    var bookings: map<int, Booking>
    var nextId: int

    /** Every stored id is below the counter, so the next insert id is fresh. */
    predicate Valid()
      reads this
    {
      forall id :: id in bookings ==> id < nextId
    }

    constructor ()
      ensures Valid() && bookings == map[] && nextId == 1
    {
      bookings := map[];
      nextId := 1;
    }

    /** `POST /api/bookings`, after authentication: required fields, time
        range, room existence and the room-scoped conflict check, in that
        order, before the single INSERT. `rooms` is the rooms table. */
    method Create(req: NewBooking, rooms: seq<Room>) returns (r: Reply)
      requires Valid()
      modifies this
      ensures Valid()
      ensures !Complete(req) ==> r == BadRequest(MISSING_FIELDS) && unchanged(this)
      ensures Complete(req) && !RangeOk(req) ==> r == BadRequest(BAD_RANGE) && unchanged(this)
      ensures Complete(req) && RangeOk(req) && FindRoom(rooms, req.roomId.value).None? ==>
        r == NotFound(ROOM_NOT_FOUND) && unchanged(this)
      ensures Complete(req) && RangeOk(req) && FindRoom(rooms, req.roomId.value).Some?
              && RoomConflicts(old(bookings), req.roomId.value, req.startTime.value, req.endTime.value, None) != map[] ==>
        r == Conflict(ROOM_TAKEN, RoomConflicts(old(bookings), req.roomId.value, req.startTime.value, req.endTime.value, None))
        && unchanged(this)
      ensures r.Created? <==>
        Complete(req) && RangeOk(req) && FindRoom(rooms, req.roomId.value).Some?
        && RoomConflicts(old(bookings), req.roomId.value, req.startTime.value, req.endTime.value, None) == map[]
      ensures r.Created? ==>
        r.id == old(nextId) && r.id !in old(bookings) && r.row == NewRow(req)
        && r.row.startTime < r.row.endTime
        && bookings == old(bookings)[r.id := r.row] && |bookings| == |old(bookings)| + 1
        && nextId == old(nextId) + 1
      ensures WellFormed(old(bookings)) ==> WellFormed(bookings)
      ensures WellFormed(old(bookings)) && NoDoubleBooking(old(bookings)) ==> NoDoubleBooking(bookings)
    {
      if !Complete(req) {
        return BadRequest(MISSING_FIELDS);
      }
      var room, s, e := req.roomId.value, req.startTime.value, req.endTime.value;
      if s >= e {
        return BadRequest(BAD_RANGE);
      }
      if FindRoom(rooms, room).None? {
        return NotFound(ROOM_NOT_FOUND);
      }
      var conflicts := RoomConflicts(bookings, room, s, e, None);
      if conflicts != map[] {
        return Conflict(ROOM_TAKEN, conflicts);
      }
      var row := NewRow(req);
      var id := nextId;
      assert RoomConflicts(bookings, room, s, e, Some(id)) == map[];
      if WellFormed(bookings) && NoDoubleBooking(bookings) {
        PlaceKeepsNoDoubleBooking(bookings, id, row);
      }
      bookings := bookings[id := row];
      nextId := nextId + 1;
      r := Created(id, row);
    }

    /** `PUT /api/bookings/:id`, after authentication. */
    method Update(id: int, p: Patch) returns (r: Reply)
      requires Valid()
      modifies this
      ensures Valid() && nextId == old(nextId)
      ensures id !in old(bookings) ==> r == NotFound(BOOKING_NOT_FOUND) && unchanged(this)
      ensures id in old(bookings) && MovesSchedule(p)
              && EffectiveStart(old(bookings)[id], p) >= EffectiveEnd(old(bookings)[id], p) ==>
        r == BadRequest(BAD_RANGE) && unchanged(this)
      ensures id in old(bookings) && MovesSchedule(p)
              && EffectiveStart(old(bookings)[id], p) < EffectiveEnd(old(bookings)[id], p)
              && RoomConflicts(old(bookings), EffectiveRoom(old(bookings)[id], p),
                               EffectiveStart(old(bookings)[id], p), EffectiveEnd(old(bookings)[id], p), Some(id)) != map[] ==>
        r == Conflict(ROOM_TAKEN, RoomConflicts(old(bookings), EffectiveRoom(old(bookings)[id], p),
                                                EffectiveStart(old(bookings)[id], p), EffectiveEnd(old(bookings)[id], p), Some(id)))
        && unchanged(this)
      ensures id in old(bookings) && WritesNothing(p) ==> r == BadRequest(NO_FIELDS) && unchanged(this)
      ensures r.Updated? <==>
        id in old(bookings) && !WritesNothing(p)
        && (MovesSchedule(p) ==>
              EffectiveStart(old(bookings)[id], p) < EffectiveEnd(old(bookings)[id], p)
              && RoomConflicts(old(bookings), EffectiveRoom(old(bookings)[id], p),
                               EffectiveStart(old(bookings)[id], p), EffectiveEnd(old(bookings)[id], p), Some(id)) == map[])
      ensures r.Updated? ==>
        r.id == id && r.row == ApplyPatch(old(bookings)[id], p) && bookings == old(bookings)[id := r.row]
      ensures r.Updated? && MovesSchedule(p) ==> r.row.startTime < r.row.endTime
      ensures WellFormed(old(bookings)) ==> WellFormed(bookings)
      ensures WellFormed(old(bookings)) && NoDoubleBooking(old(bookings))
              && (id in old(bookings) && !MovesSchedule(p) ==> !Revives(old(bookings)[id], p)) ==>
        NoDoubleBooking(bookings)
    {
      if id !in bookings {
        return NotFound(BOOKING_NOT_FOUND);
      }
      var stored := bookings[id];
      if IdGiven(p.roomId) || p.startTime.Some? || p.endTime.Some? {
        var room, s, e := EffectiveRoom(stored, p), EffectiveStart(stored, p), EffectiveEnd(stored, p);
        if s >= e {
          return BadRequest(BAD_RANGE);
        }
        var conflicts := RoomConflicts(bookings, room, s, e, Some(id));
        if conflicts != map[] {
          return Conflict(ROOM_TAKEN, conflicts);
        }
      }
      if WritesNothing(p) {
        return BadRequest(NO_FIELDS);
      }
      var row := ApplyPatch(stored, p);
      if WellFormed(bookings) && NoDoubleBooking(bookings) {
        if MovesSchedule(p) {
          PlaceKeepsNoDoubleBooking(bookings, id, row);
        } else if !Revives(stored, p) {
          StayKeepsNoDoubleBooking(bookings, id, row);
        }
      }
      bookings := bookings[id := row];
      r := Updated(id, row);
    }

    /** `DELETE /api/bookings/:id`, after authentication: a hard delete. */
    method Delete(id: int) returns (r: Reply)
      requires Valid()
      modifies this
      ensures Valid() && nextId == old(nextId)
      ensures id !in old(bookings) ==> r == NotFound(BOOKING_NOT_FOUND) && unchanged(this)
      ensures id in old(bookings) ==> r == Deleted && bookings == old(bookings) - {id}
      ensures WellFormed(old(bookings)) ==> WellFormed(bookings)
      ensures NoDoubleBooking(old(bookings)) ==> NoDoubleBooking(bookings)
    {
      if id !in bookings {
        return NotFound(BOOKING_NOT_FOUND);
      }
      bookings := bookings - {id};
      r := Deleted;
    }

    /** `GET /api/bookings/conflicts`, a read-only query. */
    function Probe(q: ProbeQuery): (r: ProbeReply)
      reads this
      ensures r.ProbeRejected? <==> !(q.roomId.Some? && q.startTime.Some? && q.endTime.Some?)
      ensures r.ProbeRejected? ==> r.error == PROBE_MISSING
      ensures r.ProbeAnswer? ==> r.count == |r.conflicts| && r.hasConflicts == (r.count > 0)
      ensures r.ProbeAnswer? && !q.excludeId.Some? ==>
        r.conflicts == RoomConflicts(bookings, q.roomId.value, q.startTime.value, q.endTime.value, None)
      ensures r.ProbeAnswer? && q.excludeId.Some? ==>
        r.conflicts == RoomConflicts(bookings, q.roomId.value, q.startTime.value, q.endTime.value, None) - {q.excludeId.value}
    {
      if !(q.roomId.Some? && q.startTime.Some? && q.endTime.Some?) then
        ProbeRejected(PROBE_MISSING)
      else
        var exclude := q.excludeId;
        var conflicts := RoomConflicts(bookings, q.roomId.value, q.startTime.value, q.endTime.value, exclude);
        if q.excludeId.Some? then
          ExcludeRemovesExactlyOne(bookings, q.roomId.value, q.startTime.value, q.endTime.value, q.excludeId.value);
          ProbeAnswer(|conflicts| > 0, |conflicts|, conflicts)
        else
          ProbeAnswer(|conflicts| > 0, |conflicts|, conflicts)
    }
  }

  /** The query string of `GET /api/bookings/conflicts`. Query values are
      strings, so any non-empty one is truthy, "0" included; `None` is a
      parameter that is absent or empty. */
  datatype ProbeQuery = ProbeQuery(roomId: Option<int>, startTime: Option<int>, endTime: Option<int>, excludeId: Option<int>)

  /** `{has_conflicts, count, conflicts}`, or the 400 answer. */
  datatype ProbeReply =
    | ProbeRejected(error: string)
    | ProbeAnswer(hasConflicts: bool, count: nat, conflicts: map<int, Booking>)

  // ---------------------------------------------------------------------
  // Route registration order of the service's GET endpoints.

  /** A path pattern segment: literal text, matched ignoring case as
      Express does by default, or a `:param` that matches any non-empty
      segment. */
  datatype Segment = Lit(text: string) | Param

  datatype Handler = ListBookings | GetBooking | RoomBookings | ConflictProbe

  datatype Route = Route(pattern: seq<Segment>, handler: Handler)

  predicate SegmentMatches(g: Segment, s: string)
  {
    match g
    case Lit(t) => Lower(t) == Lower(s)
    case Param => s != ""
  }

  predicate PatternMatches(pattern: seq<Segment>, path: seq<string>)
  {
    |pattern| == |path| && forall i :: 0 <= i < |path| ==> SegmentMatches(pattern[i], path[i])
  }

  /** Express tries routes in registration order and runs the first match. */
  function Dispatch(routes: seq<Route>, path: seq<string>): (h: Option<Handler>)
    ensures h.Some? ==> exists k :: 0 <= k < |routes| && routes[k].handler == h.value && PatternMatches(routes[k].pattern, path)
                                    && forall j :: 0 <= j < k ==> !PatternMatches(routes[j].pattern, path)
    ensures h.None? <==> forall k :: 0 <= k < |routes| ==> !PatternMatches(routes[k].pattern, path)
  {
    if routes == [] then None
    else if PatternMatches(routes[0].pattern, path) then Some(routes[0].handler)
    else
      var h := Dispatch(routes[1..], path);
      assert forall k :: 1 <= k < |routes| ==> routes[k] == routes[1..][k - 1];
      h
  }

  const BY_ID := Route([Lit("api"), Lit("bookings"), Param], GetBooking)
  const PROBE := Route([Lit("api"), Lit("bookings"), Lit("conflicts")], ConflictProbe)
  const LIST := Route([Lit("api"), Lit("bookings")], ListBookings)
  const BY_ROOM := Route([Lit("api"), Lit("bookings"), Lit("room"), Param], RoomBookings)

  /** The GET routes in the order the service registers them. */
  function AsWrittenGetRoutes(): (routes: seq<Route>)
    ensures |routes| == 4 && routes[1] == BY_ID && routes[3] == PROBE
  {
    [LIST, BY_ID, BY_ROOM, PROBE]
  }

  /** As registered, `GET /api/bookings/conflicts` is taken by the
      `/:id` route with id "conflicts"; the probe handler never runs. */
  lemma ProbeShadowedAsWritten()
    ensures Dispatch(AsWrittenGetRoutes(), ["api", "bookings", "conflicts"]) == Some(GetBooking)
  {
    var path := ["api", "bookings", "conflicts"];
    assert !PatternMatches(LIST.pattern, path);
    assert PatternMatches(BY_ID.pattern, path);
  }

  /** The probe registered before `/:id`, as the rooms and teachers
      services do with their own literal routes. */
  function GetRoutes(): (routes: seq<Route>)
    ensures |routes| == 4 && routes[1] == PROBE && routes[2] == BY_ID
  {
    [LIST, PROBE, BY_ID, BY_ROOM]
  }

  /** With the probe first, every path the probe pattern matches (its own
      path in any letter case) reaches the probe, and every other path
      reaches the same handler as before. */
  lemma {:induction false} ProbeReachable(path: seq<string>)
    ensures PatternMatches(PROBE.pattern, ["api", "bookings", "conflicts"])
    ensures PatternMatches(PROBE.pattern, path) ==> Dispatch(GetRoutes(), path) == Some(ConflictProbe)
    ensures !PatternMatches(PROBE.pattern, path) ==> Dispatch(GetRoutes(), path) == Dispatch(AsWrittenGetRoutes(), path)
  {
    if PatternMatches(PROBE.pattern, path) {
      assert !PatternMatches(LIST.pattern, path);
    } else {
      assert Dispatch([PROBE, BY_ID, BY_ROOM], path) == Dispatch([BY_ID, BY_ROOM], path);
      assert Dispatch([BY_ID, BY_ROOM, PROBE], path) == Dispatch([BY_ID, BY_ROOM], path) by {
        if !PatternMatches(BY_ID.pattern, path) && !PatternMatches(BY_ROOM.pattern, path) {
          assert Dispatch([PROBE], path) == None;
        }
      }
      assert GetRoutes()[1..] == [PROBE, BY_ID, BY_ROOM];
      assert AsWrittenGetRoutes()[1..] == [BY_ID, BY_ROOM, PROBE];
    }
  }
}
