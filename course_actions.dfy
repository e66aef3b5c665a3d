/**
 * The create-course server action: look up the session, validate the
 * submitted values with the course schema, insert one row, and report the
 * outcome as an `ApiResponse`. The course table is a sequence of rows that
 * the action only ever appends to.
 */
module CourseActions {

  import opened Wrappers
  import opened Json
  import opened CourseSchema

  /** The `{status, message}` pair every server action returns. */
  datatype ApiResponse = ApiResponse(status: string, message: string)

  const InvalidData := ApiResponse("error", "Invalid course data")
  const Created := ApiResponse("success", "Course created successfully")
  const CreateFailed := ApiResponse("error", "Failed to create course")

  /** What the session lookup did: it threw, found nobody, or found a signed-in user. */
  datatype SessionLookup = LookupThrew | NoSession | SignedIn(userId: string)

  /** `session?.user.id`: None stands for `undefined` when there is no session. */
  function UserIdOf(session: SessionLookup): (id: Option<string>)
    requires !session.LookupThrew?
    ensures id.Some? <==> session.SignedIn?
    ensures session.SignedIn? ==> id == Some(session.userId)
  {
    if session.SignedIn? then Some(session.userId) else None
  }

  /** A stored course: the validated fields plus the creating user's id. */
  datatype CourseRow = CourseRow(course: Course, userId: Option<string>)

  predicate AllValid(rows: seq<CourseRow>)
  {
    forall i :: 0 <= i < |rows| ==> ValidCourse(rows[i].course)
  }

  /** The course table behind the ORM. */
  class CourseTable {
    var rows: seq<CourseRow>

    constructor ()
      ensures rows == []
    {
      rows := [];
    }

    /** `prisma.course.create`: appends the row, or throws (`fails`) and leaves the table as it was. */
    method Create(row: CourseRow, fails: bool) returns (ok: bool)
      modifies this
      ensures ok == !fails
      ensures rows == if ok then old(rows) + [row] else old(rows)
    {
      ok := !fails;
      if ok {
        rows := rows + [row];
      }
    }
  }

  /**
   * `CreateCourseAction(values)`. The session lookup runs first, so if it
   * throws the result is the generic failure even for invalid data; then
   * validation is the only gate (an absent session is not rejected); then
   * one row is inserted, or the insert throws.
   */
  method CreateCourseAction(db: CourseTable, values: Value, session: SessionLookup, createThrows: bool)
    returns (r: ApiResponse)
    modifies db
    ensures r.status == "success" || r.status == "error"
    ensures r.status == "success" <==> r == Created
    ensures r == Created <==> !session.LookupThrew? && SafeParse(values).Some? && !createThrows
    ensures session.LookupThrew? ==> r == CreateFailed
    ensures !session.LookupThrew? && SafeParse(values).None? ==> r == InvalidData
    ensures !session.LookupThrew? && SafeParse(values).Some? && createThrows ==> r == CreateFailed
    ensures r == Created ==> db.rows == old(db.rows) + [CourseRow(SafeParse(values).value, UserIdOf(session))]
    ensures r != Created ==> db.rows == old(db.rows)
    ensures old(db.rows) <= db.rows && |db.rows| <= |old(db.rows)| + 1
    ensures AllValid(old(db.rows)) ==> AllValid(db.rows)
  {
    if session.LookupThrew? {
      return CreateFailed;
    }
    var validation := SafeParse(values);
    if validation.None? {
      return InvalidData;
    }
    var ok := db.Create(CourseRow(validation.value, UserIdOf(session)), createThrows);
    if !ok {
      return CreateFailed;
    }
    return Created;
  }
}
