/** The teachers service: availability of one teacher, reached through the
    teacher's active activities, and the tagged list of active teachers. */
module Teachers {
  import opened Common
  import opened Records
  import opened Overlap

  const TEACHER_NOT_FOUND := "Teacher not found"
  const NOT_ACTIVE := "Teacher is not active"
  const ACTIVE := "active"

  /** One entry of `conflicts` in the per-teacher answer. */
  datatype ConflictInfo = ConflictInfo(bookingId: int, activityName: string, startTime: int, endTime: int, roomId: int)

  /** The answer of `GET /api/teachers/:id/availability`. */
  datatype TeacherReply =
    | TeacherMissing(error: string)
    | Inactive(teacherId: int, reason: string, conflicts: map<int, ConflictInfo>)
    | StatusOnly(teacherId: int, available: bool, status: string)
    | Checked(teacherId: int, available: bool, conflicts: map<int, ConflictInfo>)
  {
    function Code(): int
    {
      if TeacherMissing? then 404 else 200
    }

    /** The `available` field (false for an inactive teacher). */
    predicate Available()
    {
      (StatusOnly? && available) || (Checked? && available)
    }
  }

  /** `SELECT id FROM activities WHERE teacher_id = ? AND status = "active"`. */
  function ActiveActivityIds(activities: map<int, Activity>, teacher: int): (scope: set<int>)
    ensures forall a :: a in scope <==>
      a in activities && activities[a].teacherId == Some(teacher) && activities[a].status == ACTIVE
  {
    set a | a in activities && activities[a].teacherId == Some(teacher) && activities[a].status == ACTIVE
  }

  /** A booking of the teacher meets the window. */
  predicate TeacherBusy(activities: map<int, Activity>, bookings: map<int, Booking>, teacher: int, s: int, e: int)
  {
    exists bid :: bid in bookings && InScope(bookings[bid], ActiveActivityIds(activities, teacher))
                  && ThreeClause(bookings[bid].startTime, bookings[bid].endTime, s, e)
  }

  /** The JOIN with `activities` and the projection to
      `{booking_id, activity_name, start_time, end_time, room_id}`. */
  function Project(activities: map<int, Activity>, bid: int, b: Booking): (c: ConflictInfo)
    requires b.activityId.Some? && b.activityId.value in activities
    ensures c.bookingId == bid && c.startTime == b.startTime && c.endTime == b.endTime && c.roomId == b.roomId
    ensures c.activityName == activities[b.activityId.value].name
  {
    ConflictInfo(bid, activities[b.activityId.value].name, b.startTime, b.endTime, b.roomId)
  }

  /** `GET /api/teachers/:id/availability`. */
  function Availability(teachers: seq<Teacher>, activities: map<int, Activity>, bookings: map<int, Booking>,
                        id: int, s: Option<int>, e: Option<int>): (r: TeacherReply)
    ensures r.TeacherMissing? <==> FindTeacher(teachers, id).None?
    ensures r.TeacherMissing? ==> r.error == TEACHER_NOT_FOUND
    ensures r.Inactive? <==> FindTeacher(teachers, id).Some? && FindTeacher(teachers, id).value.status != ACTIVE
    ensures r.Inactive? ==> r.teacherId == id && r.reason == NOT_ACTIVE && r.conflicts == map[] && !r.Available()
    ensures (FindTeacher(teachers, id).Some? && FindTeacher(teachers, id).value.status == ACTIVE
             && !(s.Some? && e.Some?)) ==> r == StatusOnly(id, true, ACTIVE)
    ensures r.Checked? <==>
      FindTeacher(teachers, id).Some? && FindTeacher(teachers, id).value.status == ACTIVE && s.Some? && e.Some?
    ensures r.Checked? && ActiveActivityIds(activities, id) == {} ==> r.available && r.conflicts == map[]
    ensures r.Checked? ==> r.teacherId == id && (r.available <==> !TeacherBusy(activities, bookings, id, s.value, e.value))
    ensures r.Checked? ==>
      r.conflicts.Keys == ScopeConflicts(bookings, ActiveActivityIds(activities, id), s.value, e.value).Keys
    ensures r.Checked? ==> forall bid :: bid in r.conflicts ==>
      bid in bookings && bookings[bid].activityId.Some? && bookings[bid].activityId.value in activities
      && r.conflicts[bid] == Project(activities, bid, bookings[bid])
  {
    match FindTeacher(teachers, id)
    case None => TeacherMissing(TEACHER_NOT_FOUND)
    case Some(teacher) =>
      if teacher.status != ACTIVE then Inactive(id, NOT_ACTIVE, map[])
      else if !(s.Some? && e.Some?) then StatusOnly(id, teacher.status == ACTIVE, teacher.status)
      else
        var scope := ActiveActivityIds(activities, id);
        if scope == {} then Checked(id, true, map[])
        else
          var found := ScopeConflicts(bookings, scope, s.value, e.value);
          BusyIffConflicts(activities, bookings, id, s.value, e.value);
          var conflicts := map bid | bid in found :: Project(activities, bid, found[bid]);
          Checked(id, |found| == 0, conflicts)
  }

  /** The teacher-scoped query finds nothing exactly when the teacher is not
      busy. */
  lemma BusyIffConflicts(activities: map<int, Activity>, bookings: map<int, Booking>, teacher: int, s: int, e: int)
    ensures |ScopeConflicts(bookings, ActiveActivityIds(activities, teacher), s, e)| == 0
            <==> !TeacherBusy(activities, bookings, teacher, s, e)
  {
    var scope := ActiveActivityIds(activities, teacher);
    var found := ScopeConflicts(bookings, scope, s, e);
    if TeacherBusy(activities, bookings, teacher, s, e) {
      var bid :| bid in bookings && InScope(bookings[bid], scope)
                 && ThreeClause(bookings[bid].startTime, bookings[bid].endTime, s, e);
      assert bid in found;
    }
    else {
      assert forall bid :: bid !in found;
      assert found == map[];
    }
  }

  /** Spelled out with the half-open test for a valid window over a
      well-formed table: busy exactly when a live booking of one of the
      teacher's active activities overlaps the window. */
  lemma BusyMeansOverlap(activities: map<int, Activity>, bookings: map<int, Booking>, teacher: int, s: int, e: int)
    requires s < e && WellFormed(bookings)
    ensures TeacherBusy(activities, bookings, teacher, s, e) <==>
      exists bid :: bid in bookings && bookings[bid].activityId.Some?
        && bookings[bid].activityId.value in activities
        && activities[bookings[bid].activityId.value].teacherId == Some(teacher)
        && activities[bookings[bid].activityId.value].status == ACTIVE
        && bookings[bid].status != CANCELLED
        && HalfOpen(bookings[bid].startTime, bookings[bid].endTime, s, e)
  {
    var scope := ActiveActivityIds(activities, teacher);
    if TeacherBusy(activities, bookings, teacher, s, e) {
      var bid :| bid in bookings && InScope(bookings[bid], scope)
                 && ThreeClause(bookings[bid].startTime, bookings[bid].endTime, s, e);
      ThreeClauseIsHalfOpen(bookings[bid].startTime, bookings[bid].endTime, s, e);
    }
  }

  /** One entry of the `/available` answer. Without a window the rows are
      passed through untouched. */
  datatype Listed =
    | Plain(teacher: Teacher)
    | Tagged(teacher: Teacher, available: bool, bookings: map<int, Booking>)

  /** `SELECT * FROM teachers WHERE status = "active"`, in the store's order. */
  function ActiveTeachers(teachers: seq<Teacher>): (r: seq<Teacher>)
    ensures forall t :: t in r <==> t in teachers && t.status == ACTIVE
    ensures Subsequence(r, teachers)
  {
    Filter((t: Teacher) => t.status == ACTIVE, teachers)
  }

  /** The record pushed for one teacher when a window is given. */
  function Tag(activities: map<int, Activity>, bookings: map<int, Booking>, s: int, e: int, t: Teacher): (r: Listed)
    ensures r.Tagged? && r.teacher == t
    ensures r.bookings == ScopeConflicts(bookings, ActiveActivityIds(activities, t.id), s, e)
    ensures r.available <==> !TeacherBusy(activities, bookings, t.id, s, e)
  {
    var scope := ActiveActivityIds(activities, t.id);
    if scope == {} then Tagged(t, true, map[])
    else
      var conflicts := ScopeConflicts(bookings, scope, s, e);
      BusyIffConflicts(activities, bookings, t.id, s, e);
      if |conflicts| == 0 then Tagged(t, true, map[]) else Tagged(t, false, conflicts)
  }

  /** `GET /api/teachers/available`: every active teacher, in order; with a
      window each one is tagged, without one they are returned as read. */
  method AvailableTeachers(teachers: seq<Teacher>, activities: map<int, Activity>, bookings: map<int, Booking>,
                           s: Option<int>, e: Option<int>) returns (result: seq<Listed>)
    ensures |result| == |ActiveTeachers(teachers)|
    ensures !(s.Some? && e.Some?) ==>
      forall i :: 0 <= i < |result| ==> result[i] == Plain(ActiveTeachers(teachers)[i])
    ensures s.Some? && e.Some? ==>
      forall i :: 0 <= i < |result| ==> result[i] == Tag(activities, bookings, s.value, e.value, ActiveTeachers(teachers)[i])
  {
    var active := ActiveTeachers(teachers);
    if !(s.Some? && e.Some?) {
      result := [];
      var i := 0;
      while i < |active|
        invariant 0 <= i <= |active|
        invariant |result| == i
        invariant forall k :: 0 <= k < i ==> result[k] == Plain(active[k])
      {
        result := result + [Plain(active[i])];
        i := i + 1;
      }
      return;
    }
    result := [];
    var i := 0;
    while i < |active|
      invariant 0 <= i <= |active|
      invariant |result| == i
      invariant forall k :: 0 <= k < i ==> result[k] == Tag(activities, bookings, s.value, e.value, active[k])
    {
      var t := active[i];
      var scope := ActiveActivityIds(activities, t.id);
      if scope == {} {
        result := result + [Tagged(t, true, map[])];
      } else {
        var conflicts := ScopeConflicts(bookings, scope, s.value, e.value);
        if |conflicts| == 0 {
          result := result + [Tagged(t, true, map[])];
        } else {
          result := result + [Tagged(t, false, conflicts)];
        }
      }
      i := i + 1;
    }
  }
}
