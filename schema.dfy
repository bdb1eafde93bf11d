/** The rows of the hosted database's tables that the front-end reads and
    writes (`profiles`, `courses`, `course_reviews`, `enrollments`), and the
    database itself as the list of rows of each table. */
module Schema {
  import opened Common

  datatype Profile = Profile(id: string, fullName: Option<string>, avatarUrl: Option<string>)

  datatype CourseRow = CourseRow(
    id: string,
    title: string,
    subtitle: Option<string>,
    description: Option<string>,
    instructorId: string,
    category: string,
    level: string,
    price: real,
    originalPrice: Option<real>,
    imageUrl: Option<string>,
    duration: Option<string>,
    language: string,
    isPublished: bool,
    isBestseller: bool,
    isNew: bool,
    createdAt: Timestamp)

  datatype ReviewRow = ReviewRow(
    id: string, courseId: string, userId: string, rating: real, comment: Option<string>)

  datatype EnrollmentRow = EnrollmentRow(
    id: string,
    userId: string,
    courseId: string,
    enrolledAt: Timestamp,
    progress: real,
    completedAt: Option<Timestamp>,
    lastAccessed: Option<Timestamp>)

  datatype Db = Db(
    profiles: seq<Profile>,
    courses: seq<CourseRow>,
    reviews: seq<ReviewRow>,
    enrollments: seq<EnrollmentRow>)

  /** A to-one embed through a foreign key: the profile with that id, or
      null when there is none. */
  function FindProfile(ps: seq<Profile>, id: string): (r: Option<Profile>)
    ensures r.Some? ==> r.value in ps && r.value.id == id
    ensures r.None? ==> forall p :: p in ps ==> p.id != id
  {
    if ps == [] then None
    else if ps[0].id == id then Some(ps[0])
    else FindProfile(ps[1..], id)
  }

  /** A to-one embed of a course through a foreign key. */
  function FindCourse(cs: seq<CourseRow>, id: string): (r: Option<CourseRow>)
    ensures r.Some? ==> r.value in cs && r.value.id == id
    ensures r.None? ==> forall c :: c in cs ==> c.id != id
  {
    if cs == [] then None
    else if cs[0].id == id then Some(cs[0])
    else FindCourse(cs[1..], id)
  }

  function ReviewOf(courseId: string): ReviewRow -> bool
  {
    (r: ReviewRow) => r.courseId == courseId
  }

  function EnrollmentIn(courseId: string): EnrollmentRow -> bool
  {
    (e: EnrollmentRow) => e.courseId == courseId
  }

  function EnrollmentId(e: EnrollmentRow): string
  {
    e.id
  }

  /** The `course_reviews` rows that reference a course, in table order. */
  function ReviewsOf(db: Db, courseId: string): seq<ReviewRow>
  {
    Filter(db.reviews, ReviewOf(courseId))
  }

  /** The `enrollments` rows that reference a course, in table order. */
  function EnrollmentsOf(db: Db, courseId: string): seq<EnrollmentRow>
  {
    Filter(db.enrollments, EnrollmentIn(courseId))
  }
}
