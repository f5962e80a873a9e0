/** The interval-overlap test that the bookings, rooms and teachers services
    each write out in SQL, and the conflict queries built on it. */
module Overlap {
  import opened Common
  import opened Records

  /** The three-clause SQL test, for a stored booking `[bs, be)` and a
      requested window from `s` to `e`:
        (start_time <= S AND end_time > S) OR
        (start_time <  E AND end_time >= E) OR
        (start_time >= S AND end_time <= E) */
  predicate ThreeClause(bs: int, be: int, s: int, e: int)
  {
    (bs <= s && be > s) || (bs < e && be >= e) || (s <= bs && be <= e)
  }

  /** Half-open interval overlap of `[s1, e1)` and `[s2, e2)`. */
  predicate HalfOpen(s1: int, e1: int, s2: int, e2: int)
  {
    s1 < e2 && s2 < e1
  }

  /** For well-formed intervals the three clauses say exactly "the half-open
      intervals overlap". */
  lemma ThreeClauseIsHalfOpen(bs: int, be: int, s: int, e: int)
    requires bs < be && s < e
    ensures ThreeClause(bs, be, s, e) <==> HalfOpen(bs, be, s, e)
  {
  }

  /** Back-to-back slots, such as [10:00, 11:00) and [11:00, 12:00), never
      conflict, whichever of the two is the stored one. */
  lemma TouchingSlotsDoNotConflict(a: int, b: int, c: int)
    requires a < b < c
    ensures !ThreeClause(a, b, b, c) && !ThreeClause(b, c, a, b)
  {
  }

  /** A window with equal start and end (which the probe and the availability
      queries do not reject) reports every booking whose closed interval
      holds that instant, including a booking that ends exactly there. */
  lemma InstantWindow(bs: int, be: int, t: int)
    requires bs < be
    ensures ThreeClause(bs, be, t, t) <==> bs <= t <= be
  {
  }

  /** A booking takes part in the room-scoped check: same room, not
      cancelled. */
  predicate Competes(b: Booking, room: int)
  {
    b.roomId == room && b.status != CANCELLED
  }

  predicate Excluded(id: int, exclude: Option<int>)
  {
    exclude.Some? && exclude.value == id
  }

  /** Every stored booking has `start < end`. */
  predicate WellFormed(m: map<int, Booking>)
  {
    forall id :: id in m ==> m[id].startTime < m[id].endTime
  }

  /** The room-scoped conflict query
      `SELECT * FROM bookings WHERE room_id = ? [AND id != ?]
       AND status != 'cancelled' AND (<three clauses>)`
      as a filter over the table. */
  function RoomConflicts(bookings: map<int, Booking>, room: int, s: int, e: int, exclude: Option<int>)
    : (r: map<int, Booking>)
    ensures forall id :: id in r ==> id in bookings && r[id] == bookings[id]
    ensures forall id :: id in r <==>
      (id in bookings && !Excluded(id, exclude) && Competes(bookings[id], room)
       && ThreeClause(bookings[id].startTime, bookings[id].endTime, s, e))
    ensures s < e && WellFormed(bookings) ==> forall id :: id in r <==>
      (id in bookings && !Excluded(id, exclude) && Competes(bookings[id], room)
       && HalfOpen(bookings[id].startTime, bookings[id].endTime, s, e))
  {
    map id | id in bookings && !Excluded(id, exclude) && Competes(bookings[id], room)
             && ThreeClause(bookings[id].startTime, bookings[id].endTime, s, e)
      :: bookings[id]
  }

  /** Excluding an id removes exactly that booking from the result. */
  lemma ExcludeRemovesExactlyOne(bookings: map<int, Booking>, room: int, s: int, e: int, x: int)
    ensures RoomConflicts(bookings, room, s, e, Some(x)) == RoomConflicts(bookings, room, s, e, None) - {x}
  {
    var with := RoomConflicts(bookings, room, s, e, None);
    var without := RoomConflicts(bookings, room, s, e, Some(x));
    assert without.Keys == with.Keys - {x};
  }

  /** A booking takes part in the teacher-scoped check: it belongs to one of
      the activities in `scope` and is not cancelled. */
  predicate InScope(b: Booking, scope: set<int>)
  {
    b.activityId.Some? && b.activityId.value in scope && b.status != CANCELLED
  }

  /** The activity-scoped conflict query
      `SELECT * FROM bookings WHERE activity_id IN (...)
       AND status != 'cancelled' AND (<three clauses>)`. */
  function ScopeConflicts(bookings: map<int, Booking>, scope: set<int>, s: int, e: int)
    : (r: map<int, Booking>)
    ensures forall id :: id in r ==> id in bookings && r[id] == bookings[id]
    ensures forall id :: id in r <==>
      (id in bookings && InScope(bookings[id], scope)
       && ThreeClause(bookings[id].startTime, bookings[id].endTime, s, e))
    ensures scope == {} ==> r == map[]
    ensures s < e && WellFormed(bookings) ==> forall id :: id in r <==>
      (id in bookings && InScope(bookings[id], scope)
       && HalfOpen(bookings[id].startTime, bookings[id].endTime, s, e))
  {
    map id | id in bookings && InScope(bookings[id], scope)
             && ThreeClause(bookings[id].startTime, bookings[id].endTime, s, e)
      :: bookings[id]
  }

  /** Two bookings that hold the same room at overlapping times. */
  predicate Clash(a: Booking, b: Booking)
  {
    a.roomId == b.roomId && a.status != CANCELLED && b.status != CANCELLED
    && HalfOpen(a.startTime, a.endTime, b.startTime, b.endTime)
  }

  /** The relationship invariant the booking guard is meant to keep: no two
      live bookings of a room overlap. */
  predicate NoDoubleBooking(m: map<int, Booking>)
  {
    forall i, j :: i in m && j in m && i != j ==> !Clash(m[i], m[j])
  }

  /** Writing `b` under `id` (a fresh insert or a replacement) keeps the
      invariant when the room-scoped check for `b`'s window, excluding `id`
      itself, finds nothing. */
  lemma {:induction false} PlaceKeepsNoDoubleBooking(m: map<int, Booking>, id: int, b: Booking)
    requires WellFormed(m) && NoDoubleBooking(m)
    requires b.startTime < b.endTime
    requires RoomConflicts(m, b.roomId, b.startTime, b.endTime, Some(id)) == map[]
    ensures WellFormed(m[id := b])
    ensures NoDoubleBooking(m[id := b])
  {
    var m' := m[id := b];
    forall i, j | i in m' && j in m' && i != j
      ensures !Clash(m'[i], m'[j])
    {
      if i == id {
        NoClashWithPlaced(m, id, b, j);
      } else if j == id {
        NoClashWithPlaced(m, id, b, i);
      } else {
        assert m'[i] == m[i] && m'[j] == m[j];
      }
    }
  }

  lemma NoClashWithPlaced(m: map<int, Booking>, id: int, b: Booking, k: int)
    requires WellFormed(m)
    requires b.startTime < b.endTime
    requires RoomConflicts(m, b.roomId, b.startTime, b.endTime, Some(id)) == map[]
    requires k in m && k != id
    ensures !Clash(b, m[k]) && !Clash(m[k], b)
  {
    var r := RoomConflicts(m, b.roomId, b.startTime, b.endTime, Some(id));
    assert k !in r;
    ThreeClauseIsHalfOpen(m[k].startTime, m[k].endTime, b.startTime, b.endTime);
  }

  /** Rewriting a booking without moving it and without bringing it back
      from `cancelled` keeps the invariant. */
  lemma {:induction false} StayKeepsNoDoubleBooking(m: map<int, Booking>, id: int, b: Booking)
    requires NoDoubleBooking(m)
    requires id in m
    requires b.roomId == m[id].roomId && b.startTime == m[id].startTime && b.endTime == m[id].endTime
    requires m[id].status == CANCELLED ==> b.status == CANCELLED
    ensures NoDoubleBooking(m[id := b])
  {
    var m' := m[id := b];
    forall i, j | i in m' && j in m' && i != j
      ensures !Clash(m'[i], m'[j])
    {
      assert !Clash(m[i], m[j]);
    }
  }
}
