/** The activities service: create and update with their field rules, the
    enrollment capacity guard, unenroll, and teacher assignment. */
module Activities {
  import opened Common
  import opened Records

  const NAME_CAPACITY_REQUIRED := "Name and capacity are required"
  const ACTIVITY_NOT_FOUND := "Activity not found"
  const NO_FIELDS := "No fields to update"
  const STUDENT_ID_REQUIRED := "Student ID is required"
  const STUDENT_NOT_FOUND := "Student not found"
  const FULL := "Activity is at full capacity"
  const ALREADY_ENROLLED := "Student is already enrolled in this activity"
  const ENROLLMENT_NOT_FOUND := "Enrollment not found"
  const TEACHER_NOT_FOUND := "Teacher not found"
  const DEFAULT_STATUS := "active"
  const ENROLLED := "enrolled"

  /** A row of `activity_enrollments`, without its id (the key of the
      table). The enrollment date is a clock reading and is not modelled. */
  datatype Enrollment = Enrollment(studentId: int, activityId: int, status: string)

  /** The body of `POST /api/activities`. */
  datatype NewActivity = NewActivity(
    name: Option<string>,
    description: Option<string>,
    teacherId: Option<int>,
    roomId: Option<int>,
    capacity: Option<int>,
    startDate: Option<string>,
    endDate: Option<string>,
    schedule: Option<string>,
    status: Option<string>)

  /** The body of `PUT /api/activities/:id`. For the nullable columns the
      outer `None` is "undefined" and `Some(None)` an explicit null, which
      the handler writes. */
  datatype ActivityPatch = ActivityPatch(
    name: Option<string>,
    description: Option<Option<string>>,
    teacherId: Option<Option<int>>,
    roomId: Option<Option<int>>,
    capacity: Option<int>,
    startDate: Option<Option<string>>,
    endDate: Option<Option<string>>,
    schedule: Option<Option<string>>,
    status: Option<string>)

  /** What a request gets back, with its HTTP status. */
  datatype Reply =
    | Created(id: int, row: Activity)
    | Updated(id: int, row: Activity)
    | Enrolled(enrollmentId: int)
    | Unenrolled
    | BadRequest(error: string)
    | NotFound(error: string)
    | Duplicate(error: string)
  {
    function Code(): int
    {
      match this
      case Created(_, _) => 201
      case Updated(_, _) => 200
      case Enrolled(_) => 201
      case Unenrolled => 200
      case BadRequest(_) => 400
      case NotFound(_) => 404
      case Duplicate(_) => 409
    }
  }

  /** The row the INSERT writes: absent optional fields become NULL, the
      status is `active` unless a non-empty one was sent. */
  function NewRow(req: NewActivity): (a: Activity)
    requires TextGiven(req.name) && IdGiven(req.capacity)
    ensures a.name == req.name.value && a.capacity == req.capacity.value && a.capacity != 0
    ensures a.description == req.description && a.teacherId == req.teacherId && a.roomId == req.roomId
    ensures a.startDate == req.startDate && a.endDate == req.endDate && a.schedule == req.schedule
    ensures a.status == if TextGiven(req.status) then req.status.value else DEFAULT_STATUS
    ensures a.status != ""
  {
    Activity(req.name.value, req.description, req.teacherId, req.roomId, req.capacity.value,
             req.startDate, req.endDate, req.schedule,
             if TextGiven(req.status) then req.status.value else DEFAULT_STATUS)
  }

  /** The `updates` array stays empty. */
  predicate WritesNothing(p: ActivityPatch)
  {
    !TextGiven(p.name) && p.description.None? && p.teacherId.None? && p.roomId.None?
    && !IdGiven(p.capacity) && p.startDate.None? && p.endDate.None? && p.schedule.None?
    && !TextGiven(p.status)
  }

  /** The sparse `UPDATE activities SET ...`: name, capacity and status are
      written when truthy, the other columns whenever they are defined. */
  function ApplyPatch(a: Activity, p: ActivityPatch): (r: Activity)
    ensures TextGiven(p.name) ==> r.name == p.name.value
    ensures !TextGiven(p.name) ==> r.name == a.name
    ensures IdGiven(p.capacity) ==> r.capacity == p.capacity.value
    ensures !IdGiven(p.capacity) ==> r.capacity == a.capacity
    ensures TextGiven(p.status) ==> r.status == p.status.value
    ensures !TextGiven(p.status) ==> r.status == a.status
    ensures p.description.Some? ==> r.description == p.description.value
    ensures p.description.None? ==> r.description == a.description
    ensures p.teacherId.Some? ==> r.teacherId == p.teacherId.value
    ensures p.teacherId.None? ==> r.teacherId == a.teacherId
    ensures p.roomId.Some? ==> r.roomId == p.roomId.value
    ensures p.roomId.None? ==> r.roomId == a.roomId
    ensures p.startDate.Some? ==> r.startDate == p.startDate.value
    ensures p.startDate.None? ==> r.startDate == a.startDate
    ensures p.endDate.Some? ==> r.endDate == p.endDate.value
    ensures p.endDate.None? ==> r.endDate == a.endDate
    ensures p.schedule.Some? ==> r.schedule == p.schedule.value
    ensures p.schedule.None? ==> r.schedule == a.schedule
  {
    Activity(
      if TextGiven(p.name) then p.name.value else a.name,
      if p.description.Some? then p.description.value else a.description,
      if p.teacherId.Some? then p.teacherId.value else a.teacherId,
      if p.roomId.Some? then p.roomId.value else a.roomId,
      if IdGiven(p.capacity) then p.capacity.value else a.capacity,
      if p.startDate.Some? then p.startDate.value else a.startDate,
      if p.endDate.Some? then p.endDate.value else a.endDate,
      if p.schedule.Some? then p.schedule.value else a.schedule,
      if TextGiven(p.status) then p.status.value else a.status)
  }

  /** A patch that writes nothing leaves the row as stored. */
  lemma EmptyPatchKeepsRow(a: Activity, p: ActivityPatch)
    requires WritesNothing(p)
    ensures ApplyPatch(a, p) == a
  {
  }

  /** Applying the same patch a second time changes nothing. */
  lemma ApplyPatchIdempotent(a: Activity, p: ActivityPatch)
    ensures ApplyPatch(ApplyPatch(a, p), p) == ApplyPatch(a, p)
  {
  }

  /** The enrollment rows of one activity with status `enrolled`. */
  function EnrolledIds(rows: map<int, Enrollment>, activity: int): (ids: set<int>)
    ensures forall i :: i in ids <==> i in rows && rows[i].activityId == activity && rows[i].status == ENROLLED
  {
    set i | i in rows && rows[i].activityId == activity && rows[i].status == ENROLLED
  }

  /** `SELECT COUNT(*) ... WHERE activity_id = ? AND status = "enrolled"`. */
  function EnrolledCount(rows: map<int, Enrollment>, activity: int): nat
  {
    |EnrolledIds(rows, activity)|
  }

  /** The rows that pair `student` with `activity`, whatever their status. */
  predicate Matches(e: Enrollment, activity: int, student: int)
  {
    e.activityId == activity && e.studentId == student
  }

  predicate Paired(rows: map<int, Enrollment>, activity: int, student: int)
  {
    exists i :: i in rows && Matches(rows[i], activity, student)
  }

  /** The unique (student, activity) key that makes a second INSERT of a
      pair fail with `ER_DUP_ENTRY`. */
  predicate UniquePairs(rows: map<int, Enrollment>)
  {
    forall i, j :: i in rows && j in rows && i != j ==>
      !Matches(rows[j], rows[i].activityId, rows[i].studentId)
  }

  /** Adding an `enrolled` row under a fresh id raises the count of its
      activity by exactly one and leaves every other activity's count. */
  lemma EnrollCountStep(rows: map<int, Enrollment>, id: int, student: int, activity: int, other: int)
    requires id !in rows
    ensures EnrolledCount(rows[id := Enrollment(student, activity, ENROLLED)], activity) == EnrolledCount(rows, activity) + 1
    ensures other != activity ==>
      EnrolledCount(rows[id := Enrollment(student, activity, ENROLLED)], other) == EnrolledCount(rows, other)
  {
    var rows' := rows[id := Enrollment(student, activity, ENROLLED)];
    assert EnrolledIds(rows', activity) == EnrolledIds(rows, activity) + {id};
    if other != activity {
      assert EnrolledIds(rows', other) == EnrolledIds(rows, other);
    }
  }

  /** The guard admits a request only below capacity, so the count after a
      successful enroll is within capacity. */
  lemma EnrollWithinCapacity(rows: map<int, Enrollment>, id: int, student: int, activity: int, capacity: int)
    requires id !in rows
    requires EnrolledCount(rows, activity) < capacity
    ensures EnrolledCount(rows[id := Enrollment(student, activity, ENROLLED)], activity) <= capacity
  {
    EnrollCountStep(rows, id, student, activity, activity);
  }

  /** A fresh row for a pair not yet present keeps the pairs unique. */
  lemma InsertKeepsUnique(rows: map<int, Enrollment>, id: int, e: Enrollment)
    requires UniquePairs(rows) && id !in rows
    requires !Paired(rows, e.activityId, e.studentId)
    ensures UniquePairs(rows[id := e])
  {
    var rows' := rows[id := e];
    forall i, j | i in rows' && j in rows' && i != j
      ensures !Matches(rows'[j], rows'[i].activityId, rows'[i].studentId)
    {
      if i == id {
        assert !Matches(rows[j], e.activityId, e.studentId);
      } else if j == id {
        assert !Matches(rows[i], e.activityId, e.studentId);
      }
    }
  }

  /** `DELETE FROM activity_enrollments WHERE activity_id = ? AND student_id = ?`. */
  function RemovePair(rows: map<int, Enrollment>, activity: int, student: int): (r: map<int, Enrollment>)
    ensures forall i :: i in r <==> i in rows && !Matches(rows[i], activity, student)
    ensures forall i :: i in r ==> r[i] == rows[i]
    ensures !Paired(r, activity, student)
  {
    map i | i in rows && !Matches(rows[i], activity, student) :: rows[i]
  }

  /** With unique pairs, unenroll removes exactly one row, the one that
      holds the pair, and keeps the pairs unique. */
  lemma {:induction false} RemoveExactlyOne(rows: map<int, Enrollment>, activity: int, student: int, k: int)
    requires UniquePairs(rows)
    requires k in rows && Matches(rows[k], activity, student)
    ensures RemovePair(rows, activity, student) == rows - {k}
    ensures |RemovePair(rows, activity, student)| == |rows| - 1
    ensures UniquePairs(RemovePair(rows, activity, student))
  {
    var r := RemovePair(rows, activity, student);
    forall i | i in rows && i != k
      ensures !Matches(rows[i], activity, student)
    {
      assert !Matches(rows[i], rows[k].activityId, rows[k].studentId);
    }
    assert r.Keys == rows.Keys - {k};
    assert r == rows - {k};
  }

  /** The `activities` and `activity_enrollments` tables with their
      AUTO_INCREMENT counters. */
  class ActivityStore {
    var activities: map<int, Activity>
    var nextActivityId: int
    var enrollments: map<int, Enrollment>
    var nextEnrollmentId: int

    /** Ids stay below their counters, and the pair key holds. */
    predicate Valid()
      reads this
    {
      (forall id :: id in activities ==> id < nextActivityId)
      && (forall id :: id in enrollments ==> id < nextEnrollmentId)
      && UniquePairs(enrollments)
    }

    constructor ()
      ensures Valid()
      ensures activities == map[] && enrollments == map[] && nextActivityId == 1 && nextEnrollmentId == 1
    {
      activities := map[];
      enrollments := map[];
      nextActivityId := 1;
      nextEnrollmentId := 1;
    }

    /** `POST /api/activities`, after authentication. */
    method Create(req: NewActivity) returns (r: Reply)
      requires Valid()
      modifies this
      ensures Valid()
      ensures !(TextGiven(req.name) && IdGiven(req.capacity)) ==>
        r == BadRequest(NAME_CAPACITY_REQUIRED) && unchanged(this)
      ensures TextGiven(req.name) && IdGiven(req.capacity) ==>
        r == Created(old(nextActivityId), NewRow(req))
        && old(nextActivityId) !in old(activities)
        && activities == old(activities)[old(nextActivityId) := NewRow(req)]
        && nextActivityId == old(nextActivityId) + 1
        && enrollments == old(enrollments) && nextEnrollmentId == old(nextEnrollmentId)
    {
      if !(TextGiven(req.name) && IdGiven(req.capacity)) {
        return BadRequest(NAME_CAPACITY_REQUIRED);
      }
      var row := NewRow(req);
      var id := nextActivityId;
      activities := activities[id := row];
      nextActivityId := nextActivityId + 1;
      r := Created(id, row);
    }

    /** `PUT /api/activities/:id`, after authentication. */
    method Update(id: int, p: ActivityPatch) returns (r: Reply)
      requires Valid()
      modifies this
      ensures Valid()
      ensures id !in old(activities) ==> r == NotFound(ACTIVITY_NOT_FOUND) && unchanged(this)
      ensures id in old(activities) && WritesNothing(p) ==> r == BadRequest(NO_FIELDS) && unchanged(this)
      ensures id in old(activities) && !WritesNothing(p) ==>
        r == Updated(id, ApplyPatch(old(activities)[id], p))
        && activities == old(activities)[id := ApplyPatch(old(activities)[id], p)]
        && nextActivityId == old(nextActivityId)
        && enrollments == old(enrollments) && nextEnrollmentId == old(nextEnrollmentId)
    {
      if id !in activities {
        return NotFound(ACTIVITY_NOT_FOUND);
      }
      if WritesNothing(p) {
        return BadRequest(NO_FIELDS);
      }
      var row := ApplyPatch(activities[id], p);
      activities := activities[id := row];
      r := Updated(id, row);
    }

    /** `POST /api/activities/:id/enroll`, after authentication. `students`
        is the set of ids in the `students` table. A duplicate pair passes
        the capacity check and then fails at the INSERT. */
    method Enroll(id: int, studentId: Option<int>, students: set<int>) returns (r: Reply)
      requires Valid()
      modifies this
      ensures Valid()
      ensures !IdGiven(studentId) ==> r == BadRequest(STUDENT_ID_REQUIRED) && unchanged(this)
      ensures IdGiven(studentId) && id !in old(activities) ==> r == NotFound(ACTIVITY_NOT_FOUND) && unchanged(this)
      ensures IdGiven(studentId) && id in old(activities) && studentId.value !in students ==>
        r == NotFound(STUDENT_NOT_FOUND) && unchanged(this)
      ensures IdGiven(studentId) && id in old(activities) && studentId.value in students
              && EnrolledCount(old(enrollments), id) >= old(activities)[id].capacity ==>
        r == BadRequest(FULL) && unchanged(this)
      ensures IdGiven(studentId) && id in old(activities) && studentId.value in students
              && EnrolledCount(old(enrollments), id) < old(activities)[id].capacity
              && Paired(old(enrollments), id, studentId.value) ==>
        r == Duplicate(ALREADY_ENROLLED) && unchanged(this)
      ensures r.Enrolled? <==>
        IdGiven(studentId) && id in old(activities) && studentId.value in students
        && EnrolledCount(old(enrollments), id) < old(activities)[id].capacity
        && !Paired(old(enrollments), id, studentId.value)
      ensures r.Enrolled? ==>
        r.enrollmentId == old(nextEnrollmentId) && r.enrollmentId !in old(enrollments)
        && enrollments == old(enrollments)[r.enrollmentId := Enrollment(studentId.value, id, ENROLLED)]
        && nextEnrollmentId == old(nextEnrollmentId) + 1
        && activities == old(activities) && nextActivityId == old(nextActivityId)
        && EnrolledCount(enrollments, id) == EnrolledCount(old(enrollments), id) + 1
        && EnrolledCount(enrollments, id) <= activities[id].capacity
    {
      if !IdGiven(studentId) {
        return BadRequest(STUDENT_ID_REQUIRED);
      }
      if id !in activities {
        return NotFound(ACTIVITY_NOT_FOUND);
      }
      var student := studentId.value;
      if student !in students {
        return NotFound(STUDENT_NOT_FOUND);
      }
      if EnrolledCount(enrollments, id) >= activities[id].capacity {
        return BadRequest(FULL);
      }
      if Paired(enrollments, id, student) {
        return Duplicate(ALREADY_ENROLLED);
      }
      var row := Enrollment(student, id, ENROLLED);
      var eid := nextEnrollmentId;
      EnrollWithinCapacity(enrollments, eid, student, id, activities[id].capacity);
      EnrollCountStep(enrollments, eid, student, id, id);
      InsertKeepsUnique(enrollments, eid, row);
      enrollments := enrollments[eid := row];
      nextEnrollmentId := nextEnrollmentId + 1;
      r := Enrolled(eid);
    }

    /** `DELETE /api/activities/:id/enroll/:studentId`, after
        authentication. */
    method Unenroll(id: int, studentId: int) returns (r: Reply)
      requires Valid()
      modifies this
      ensures Valid()
      ensures !Paired(old(enrollments), id, studentId) ==> r == NotFound(ENROLLMENT_NOT_FOUND) && unchanged(this)
      ensures Paired(old(enrollments), id, studentId) ==>
        r == Unenrolled
        && enrollments == RemovePair(old(enrollments), id, studentId)
        && |enrollments| == |old(enrollments)| - 1
        && activities == old(activities) && nextActivityId == old(nextActivityId)
        && nextEnrollmentId == old(nextEnrollmentId)
    {
      if !Paired(enrollments, id, studentId) {
        return NotFound(ENROLLMENT_NOT_FOUND);
      }
      var k :| k in enrollments && Matches(enrollments[k], id, studentId);
      RemoveExactlyOne(enrollments, id, studentId, k);
      enrollments := RemovePair(enrollments, id, studentId);
      r := Unenrolled;
    }

    /** `PUT /api/activities/:id/teacher`, after authentication. `teachers`
        is the set of ids in the `teachers` table. The value sent is
        written as is, so a null clears the assignment. */
    method AssignTeacher(id: int, teacherId: Option<int>, teachers: set<int>) returns (r: Reply)
      requires Valid()
      modifies this
      ensures Valid()
      ensures id !in old(activities) ==> r == NotFound(ACTIVITY_NOT_FOUND) && unchanged(this)
      ensures id in old(activities) && IdGiven(teacherId) && teacherId.value !in teachers ==>
        r == NotFound(TEACHER_NOT_FOUND) && unchanged(this)
      ensures id in old(activities) && (IdGiven(teacherId) ==> teacherId.value in teachers) ==>
        r == Updated(id, old(activities)[id].(teacherId := teacherId))
        && activities == old(activities)[id := old(activities)[id].(teacherId := teacherId)]
        && nextActivityId == old(nextActivityId)
        && enrollments == old(enrollments) && nextEnrollmentId == old(nextEnrollmentId)
    {
      if id !in activities {
        return NotFound(ACTIVITY_NOT_FOUND);
      }
      if IdGiven(teacherId) && teacherId.value !in teachers {
        return NotFound(TEACHER_NOT_FOUND);
      }
      var row := activities[id].(teacherId := teacherId);
      activities := activities[id := row];
      r := Updated(id, row);
    }
  }
}
