/** The rows of the shared schema that the scheduling core reads: bookings,
    rooms, teachers and activities. Times are modelled as integers, so the
    JavaScript `Date` comparison and the SQL comparison of stored values
    coincide. */
module Records {
  import opened Common

  const CANCELLED := "cancelled"

  /** A row of `bookings`, without its id (the id is the key of the table). */
  datatype Booking = Booking(
    roomId: int,
    activityId: Option<int>,
    title: string,
    description: Option<string>,
    startTime: int,
    endTime: int,
    status: string,
    createdBy: Option<int>)

  /** A row of `rooms`. Location and equipment are not read by the core. */
  datatype Room = Room(id: int, name: string, capacity: int, roomType: string, status: string)

  /** A row of `teachers`, with the columns the core reads. */
  datatype Teacher = Teacher(id: int, firstName: string, lastName: string, email: string, status: string)

  /** A row of `activities`, without its id (the key of the table). */
  datatype Activity = Activity(
    name: string,
    description: Option<string>,
    teacherId: Option<int>,
    roomId: Option<int>,
    capacity: int,
    startDate: Option<string>,
    endDate: Option<string>,
    schedule: Option<string>,
    status: string)

  /** `SELECT * FROM rooms WHERE id = ?` taking `rows[0]`: the first row
      with that id, or none. */
  function FindRoom(rooms: seq<Room>, id: int): (r: Option<Room>)
    ensures r.Some? ==> r.value in rooms && r.value.id == id
    ensures r.None? <==> (forall k :: 0 <= k < |rooms| ==> rooms[k].id != id)
  {
    First(rooms, (r: Room) => r.id == id)
  }

  /** `SELECT * FROM teachers WHERE id = ?` taking `rows[0]`. */
  function FindTeacher(teachers: seq<Teacher>, id: int): (r: Option<Teacher>)
    ensures r.Some? ==> r.value in teachers && r.value.id == id
    ensures r.None? <==> (forall k :: 0 <= k < |teachers| ==> teachers[k].id != id)
  {
    First(teachers, (t: Teacher) => t.id == id)
  }
}
