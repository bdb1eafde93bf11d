/** The enrollment data hook: the signed-in user's enrollments with their
    courses, the membership lookups over that list, enrolling in a course
    and recording progress. The hosted database is the hook's `store`. */
module Enrollments {
  import opened Common
  import opened Schema
  import Courses

  /** The course embedded in an enrollment row:
      `courses(id, title, image_url, duration, profiles(full_name))`. */
  datatype EmbeddedCourse = EmbeddedCourse(
    id: string, title: string, imageUrl: Option<string>, duration: Option<string>,
    profile: Option<Profile>)

  /** An enrollment row with its embedded course (null when the course row
      is missing). */
  datatype JoinedEnrollment = JoinedEnrollment(row: EnrollmentRow, course: Option<EmbeddedCourse>)

  datatype EnrolledCourse = EnrolledCourse(embedded: EmbeddedCourse, instructorName: string)

  /** The processed enrollment: the joined row kept whole plus the course
      summary with its instructor's name. */
  datatype Enrollment = Enrollment(joined: JoinedEnrollment, course: Option<EnrolledCourse>)
  {
    function CourseId(): string { joined.row.courseId }
  }

  function EmbedCourse(db: Db, courseId: string): Option<EmbeddedCourse>
  {
    match FindCourse(db.courses, courseId)
    case None => None
    case Some(c) =>
      Some(EmbeddedCourse(c.id, c.title, c.imageUrl, c.duration, FindProfile(db.profiles, c.instructorId)))
  }

  /** The flattening of fetchEnrollments: the course is absent when the join
      is, and otherwise carries the instructor's name or the placeholder. */
  function ProcessEnrollment(j: JoinedEnrollment): (e: Enrollment)
    ensures e.joined == j
    ensures e.course.None? <==> j.course.None?
    ensures e.course.Some? ==> e.course.value.embedded == j.course.value && e.course.value.instructorName != ""
    ensures e.course.Some? ==> e.course.value.instructorName == Courses.InstructorName(j.course.value.profile)
    ensures e.course.Some? && j.course.value.profile.Some? && Truthy(j.course.value.profile.value.fullName) ==>
      e.course.value.instructorName == j.course.value.profile.value.fullName.value
    ensures e.course.Some? && !(j.course.value.profile.Some? && Truthy(j.course.value.profile.value.fullName)) ==>
      e.course.value.instructorName == Courses.UnknownInstructor
  {
    match j.course
    case None => Enrollment(j, None)
    case Some(c) => Enrollment(j, Some(EnrolledCourse(c, Courses.InstructorName(c.profile))))
  }

  function JoinIn(db: Db): EnrollmentRow -> Enrollment
  {
    (r: EnrollmentRow) => ProcessEnrollment(JoinedEnrollment(r, EmbedCourse(db, r.courseId)))
  }

  function OfUser(userId: string): EnrollmentRow -> bool
  {
    (r: EnrollmentRow) => r.userId == userId
  }

  function EnrolledAt(r: EnrollmentRow): int
  {
    r.enrolledAt
  }

  function EnrollmentEnrolledAt(e: Enrollment): int
  {
    e.joined.row.enrolledAt
  }

  /** fetchEnrollments' query: the user's rows, newest enrollment first, each
      with its course embedded and then flattened. */
  function UserEnrollments(db: Db, userId: string): seq<Enrollment>
  {
    Map(SortDesc(Filter(db.enrollments, OfUser(userId)), EnrolledAt), JoinIn(db))
  }

  /** The fetched list holds exactly the user's enrollment rows, newest first. */
  lemma UserEnrollmentsExact(db: Db, userId: string, row: EnrollmentRow)
    ensures forall e :: e in UserEnrollments(db, userId) ==>
      e.joined.row in db.enrollments && e.joined.row.userId == userId
    ensures row in db.enrollments && row.userId == userId ==>
      JoinIn(db)(row) in UserEnrollments(db, userId)
    ensures SortedDesc(UserEnrollments(db, userId), EnrollmentEnrolledAt)
  {
    forall e | e in UserEnrollments(db, userId)
      ensures e.joined.row in db.enrollments && e.joined.row.userId == userId
    {
      UserEnrollmentSound(db, userId, e);
    }
    if row in db.enrollments && row.userId == userId {
      UserEnrollmentComplete(db, userId, row);
    }
    UserEnrollmentsOrdered(db, userId);
  }

  /** Every fetched enrollment is one of the user's own rows. */
  lemma UserEnrollmentSound(db: Db, userId: string, e: Enrollment)
    requires e in UserEnrollments(db, userId)
    ensures e.joined.row in db.enrollments && e.joined.row.userId == userId
  {
    var sorted := SortDesc(Filter(db.enrollments, OfUser(userId)), EnrolledAt);
    var es := UserEnrollments(db, userId);
    var i :| 0 <= i < |es| && es[i] == e;
    assert sorted[i] in multiset(sorted);
  }

  /** Every row of the user's is fetched, joined with its course. */
  lemma UserEnrollmentComplete(db: Db, userId: string, row: EnrollmentRow)
    requires row in db.enrollments && row.userId == userId
    ensures JoinIn(db)(row) in UserEnrollments(db, userId)
  {
    var sorted := SortDesc(Filter(db.enrollments, OfUser(userId)), EnrolledAt);
    FilterComplete(db.enrollments, OfUser(userId), row);
    assert row in multiset(sorted);
    var i :| 0 <= i < |sorted| && sorted[i] == row;
    assert UserEnrollments(db, userId)[i] == JoinIn(db)(row);
  }

  /** The fetched list is ordered by enrolled_at, newest first. */
  lemma UserEnrollmentsOrdered(db: Db, userId: string)
    ensures SortedDesc(UserEnrollments(db, userId), EnrollmentEnrolledAt)
  {
    var sorted := SortDesc(Filter(db.enrollments, OfUser(userId)), EnrolledAt);
    var es := UserEnrollments(db, userId);
    assert forall i :: 0 <= i < |es| ==> EnrollmentEnrolledAt(es[i]) == EnrolledAt(sorted[i]);
  }

  /** The instructor name shown beside an enrollment is the one the course
      listing shows for that course. */
  lemma InstructorNameAgreesWithListing(db: Db, row: EnrollmentRow, c: CourseRow)
    requires FindCourse(db.courses, row.courseId) == Some(c)
    ensures JoinIn(db)(row).course.Some?
    ensures JoinIn(db)(row).course.value.instructorName == Courses.View(db, c).instructorName
  {
  }

  /** isEnrolled: `enrollments.some(e => e.course_id === courseId)` */
  predicate IsEnrolled(es: seq<Enrollment>, courseId: string)
  {
    exists i | 0 <= i < |es| :: es[i].CourseId() == courseId
  }

  /** getEnrollment: `enrollments.find(e => e.course_id === courseId)`, the
      first match in list order. */
  function GetEnrollment(es: seq<Enrollment>, courseId: string): (r: Option<Enrollment>)
    ensures r.Some? <==> IsEnrolled(es, courseId)
    ensures r.Some? ==> r.value in es && r.value.CourseId() == courseId
    ensures forall i ::
      (0 <= i < |es| && es[i].CourseId() == courseId &&
       forall j :: 0 <= j < i ==> es[j].CourseId() != courseId) ==> r == Some(es[i])
  {
    if es == [] then None
    else if es[0].CourseId() == courseId then Some(es[0])
    else
      var r := GetEnrollment(es[1..], courseId);
      assert forall i :: 1 <= i < |es| ==> es[i] == es[1..][i - 1];
      r
  }

  /** The rows `.eq('user_id', u).eq('course_id', c)` selects. */
  function Holds(userId: string, courseId: string): EnrollmentRow -> bool
  {
    (r: EnrollmentRow) => r.userId == userId && r.courseId == courseId
  }

  /** The already-enrolled check: `.single()` returns a row only when
      exactly one matches; when the check itself fails it returns nothing. */
  predicate ExistingFound(db: Db, userId: string, courseId: string, checkFails: bool)
  {
    !checkFails && Count(db.enrollments, Holds(userId, courseId)) == 1
  }

  /** The inserted row: the given user and course with progress 0; id and
      enrollment time come from the database's defaults. */
  function NewRow(id: string, userId: string, courseId: string, now: Timestamp): EnrollmentRow
  {
    EnrollmentRow(id, userId, courseId, now, 0.0, None, None)
  }

  /** The decision of enrollInCourse. */
  function EnrollOutcome(db: Db, user: Option<string>, courseId: string, checkFails: bool,
                         insertFailure: Option<Thrown>): Result<()>
  {
    if user.None? then Err("User must be logged in to enroll")
    else if ExistingFound(db, user.value, courseId, checkFails) then Err("Already enrolled in this course")
    else if insertFailure.Some? then Err(MessageOf(insertFailure.value, "Failed to enroll in course"))
    else Ok(())
  }

  /** The store after enrollInCourse: one more row on success, unchanged otherwise. */
  function StoreAfterEnroll(db: Db, user: Option<string>, courseId: string, checkFails: bool,
                            insertFailure: Option<Thrown>, newId: string, now: Timestamp): Db
  {
    if EnrollOutcome(db, user, courseId, checkFails, insertFailure).Ok? then
      db.(enrollments := db.enrollments + [NewRow(newId, user.value, courseId, now)])
    else db
  }

  /** Two enrollments in a row (not racing) by a user who had none for the
      course: the first inserts exactly one row, the second fails as already
      enrolled and leaves the store as the first left it. */
  lemma {:induction false} EnrollTwice(db: Db, u: string, c: string, id1: string, id2: string,
                                       now1: Timestamp, now2: Timestamp)
    requires Count(db.enrollments, Holds(u, c)) == 0
    ensures EnrollOutcome(db, Some(u), c, false, None).Ok?
    ensures var db1 := StoreAfterEnroll(db, Some(u), c, false, None, id1, now1);
      && |db1.enrollments| == |db.enrollments| + 1
      && EnrollOutcome(db1, Some(u), c, false, None) == Err("Already enrolled in this course")
      && StoreAfterEnroll(db1, Some(u), c, false, None, id2, now2) == db1
  {
    CountSnoc(db.enrollments, NewRow(id1, u, c, now1), Holds(u, c));
  }

  /** The update `{ progress, last_accessed: <time>, ...(progress >= 100 &&
      { completed_at: <time> }) }`. The code reads the clock once for each of
      the two columns, so the two times are separate inputs. */
  datatype ProgressPatch = ProgressPatch(progress: real, lastAccessed: Timestamp, completedAt: Option<Timestamp>)

  function MakePatch(progress: real, accessedAt: Timestamp, completedNow: Timestamp): (p: ProgressPatch)
    ensures p.progress == progress && p.lastAccessed == accessedAt
    ensures p.completedAt.Some? <==> progress >= 100.0
    ensures p.completedAt.Some? ==> p.completedAt.value == completedNow
  {
    ProgressPatch(progress, accessedAt, if progress >= 100.0 then Some(completedNow) else None)
  }

  /** A column missing from the patch keeps its stored value. */
  function ApplyPatch(r: EnrollmentRow, p: ProgressPatch): EnrollmentRow
  {
    r.(progress := p.progress,
       lastAccessed := Some(p.lastAccessed),
       completedAt := if p.completedAt.Some? then p.completedAt else r.completedAt)
  }

  /** `.update(patch).eq('id', enrollmentId)` */
  function PatchRows(rows: seq<EnrollmentRow>, enrollmentId: string, p: ProgressPatch): seq<EnrollmentRow>
  {
    Map(rows, (r: EnrollmentRow) => if r.id == enrollmentId then ApplyPatch(r, p) else r)
  }

  /** The progress write: progress is stored as given (no clamping, and it
      may go down), the access time is always set, and the completion time is
      set at 100 or more and otherwise left as it was. Rows with other ids
      are untouched. */
  lemma ProgressUpdate(rows: seq<EnrollmentRow>, enrollmentId: string, progress: real,
                       accessedAt: Timestamp, completedNow: Timestamp, i: int)
    requires 0 <= i < |rows|
    ensures var after := PatchRows(rows, enrollmentId, MakePatch(progress, accessedAt, completedNow));
      && |after| == |rows|
      && (rows[i].id != enrollmentId ==> after[i] == rows[i])
      && (rows[i].id == enrollmentId ==>
            && after[i].id == rows[i].id && after[i].userId == rows[i].userId
            && after[i].courseId == rows[i].courseId && after[i].enrolledAt == rows[i].enrolledAt
            && after[i].progress == progress
            && after[i].lastAccessed == Some(accessedAt)
            && after[i].completedAt == (if progress >= 100.0 then Some(completedNow) else rows[i].completedAt))
  {
  }

  /** A row never completed before: progress 100 completes it, 99 does not. */
  lemma CompletionThreshold(r: EnrollmentRow, accessedAt: Timestamp, completedNow: Timestamp)
    requires r.completedAt.None?
    ensures ApplyPatch(r, MakePatch(100.0, accessedAt, completedNow)).completedAt == Some(completedNow)
    ensures ApplyPatch(r, MakePatch(99.0, accessedAt, completedNow)).completedAt.None?
  {
  }

  /** The state of the hook for the signed-in user (`user`, absent when
      nobody is signed in) over the database `store`. */
  class EnrollmentsHook {
    var user: Option<string>
    var enrollments: seq<Enrollment>
    var loading: bool
    var error: Option<string>
    var store: Db

    constructor (user: Option<string>, store: Db)
      ensures this.user == user && this.store == store
      ensures enrollments == [] && loading && error == None
    {
      this.user := user;
      this.store := store;
      enrollments := [];
      loading := true;
      error := None;
    }

    /** fetchEnrollments. Does nothing without a user. `failure` is the
        error the query reports, if any. */
    method FetchEnrollments(failure: Option<Thrown>)
      modifies this`enrollments, this`loading, this`error
      ensures user.None? ==>
        enrollments == old(enrollments) && loading == old(loading) && error == old(error)
      ensures user.Some? ==> !loading
      ensures user.Some? && failure.None? ==>
        enrollments == UserEnrollments(store, user.value) && error == old(error)
      ensures user.Some? && failure.Some? ==>
        enrollments == old(enrollments) && error == Some(MessageOf(failure.value, "Failed to fetch enrollments"))
    {
      if user.None? {
        return;
      }
      loading := true;
      if failure.Some? {
        error := Some(MessageOf(failure.value, "Failed to fetch enrollments"));
      } else {
        enrollments := UserEnrollments(store, user.value);
      }
      loading := false;
    }

    /** The effect that runs when the signed-in user changes: fetch for a
        user, otherwise an empty list and loading over. */
    method UserChanged(u: Option<string>, failure: Option<Thrown>)
      modifies this`user, this`enrollments, this`loading, this`error
      ensures user == u && !loading
      ensures u.None? ==> enrollments == [] && error == old(error)
      ensures u.Some? && failure.None? ==>
        enrollments == UserEnrollments(store, u.value) && error == old(error)
      ensures u.Some? && failure.Some? ==>
        enrollments == old(enrollments) && error == Some(MessageOf(failure.value, "Failed to fetch enrollments"))
    {
      user := u;
      if u.Some? {
        FetchEnrollments(failure);
      } else {
        enrollments := [];
        loading := false;
      }
    }

    /** enrollInCourse. `checkFails` says the already-enrolled lookup
        failed (it then finds nothing), `insertFailure` is the error the
        insert reports, `refreshFailure` the error of the refetch that
        follows a successful insert (caught by fetchEnrollments itself);
        `newId` and `now` are the database's defaults for the new row. */
    method EnrollInCourse(courseId: string, checkFails: bool, insertFailure: Option<Thrown>,
                          refreshFailure: Option<Thrown>, newId: string, now: Timestamp)
      returns (r: Result<()>)
      modifies this`store, this`enrollments, this`loading, this`error
      ensures r == EnrollOutcome(old(store), user, courseId, checkFails, insertFailure)
      ensures store == StoreAfterEnroll(old(store), user, courseId, checkFails, insertFailure, newId, now)
      ensures r.Err? ==>
        enrollments == old(enrollments) && loading == old(loading) && error == old(error)
      ensures r.Ok? && refreshFailure.None? ==>
        enrollments == UserEnrollments(store, user.value) && !loading && error == old(error)
      ensures r.Ok? && refreshFailure.Some? ==>
        enrollments == old(enrollments) && !loading &&
        error == Some(MessageOf(refreshFailure.value, "Failed to fetch enrollments"))
    {
      if user.None? {
        return Err("User must be logged in to enroll");
      }
      if ExistingFound(store, user.value, courseId, checkFails) {
        return Err("Already enrolled in this course");
      }
      if insertFailure.Some? {
        return Err(MessageOf(insertFailure.value, "Failed to enroll in course"));
      }
      store := store.(enrollments := store.enrollments + [NewRow(newId, user.value, courseId, now)]);
      FetchEnrollments(refreshFailure);
      r := Ok(());
    }

    /** updateProgress. `failure` is the error the update reports,
        `refreshFailure` that of the refetch after it. No user is needed. */
    method UpdateProgress(enrollmentId: string, progress: real, accessedAt: Timestamp, completedNow: Timestamp,
                          failure: Option<Thrown>, refreshFailure: Option<Thrown>)
      returns (r: Result<()>)
      modifies this`store, this`enrollments, this`loading, this`error
      ensures failure.Some? ==>
        r == Err(MessageOf(failure.value, "Failed to update progress")) &&
        store == old(store) && enrollments == old(enrollments) &&
        loading == old(loading) && error == old(error)
      ensures failure.None? ==>
        r == Ok(()) &&
        store == old(store).(enrollments := PatchRows(old(store).enrollments, enrollmentId, MakePatch(progress, accessedAt, completedNow)))
      ensures failure.None? && user.None? ==>
        enrollments == old(enrollments) && loading == old(loading) && error == old(error)
      ensures failure.None? && user.Some? && refreshFailure.None? ==>
        enrollments == UserEnrollments(store, user.value) && !loading && error == old(error)
      ensures failure.None? && user.Some? && refreshFailure.Some? ==>
        enrollments == old(enrollments) && !loading &&
        error == Some(MessageOf(refreshFailure.value, "Failed to fetch enrollments"))
    {
      if failure.Some? {
        return Err(MessageOf(failure.value, "Failed to update progress"));
      }
      store := store.(enrollments := PatchRows(store.enrollments, enrollmentId, MakePatch(progress, accessedAt, completedNow)));
      FetchEnrollments(refreshFailure);
      r := Ok(());
    }
  }
}
