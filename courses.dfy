/** The course data hook: the published-course listing, the course detail
    lookup and the search, each a query over the database followed by the
    flattening of every joined row into a view-model with the instructor's
    name, the mean review rating and the student count. */
module Courses {
  import opened Common
  import opened Text
  import opened Schema

  const UnknownInstructor := "Unknown Instructor"

  /** A course row with the relations its select string embeds: the
      instructor's profile (null when missing), the course's reviews and the
      ids of its enrollments. */
  datatype JoinedCourse = JoinedCourse(
    course: CourseRow,
    profile: Option<Profile>,
    reviews: Option<seq<ReviewRow>>,
    enrollmentIds: Option<seq<string>>)

  /** The processed course: the joined row kept whole (the object spread)
      plus the three derived fields. */
  datatype CourseView = CourseView(
    joined: JoinedCourse, instructorName: string, rating: real, studentCount: nat)

  /** The embed the backend performs for one course row. */
  function Embed(db: Db, c: CourseRow): JoinedCourse
  {
    JoinedCourse(
      c,
      FindProfile(db.profiles, c.instructorId),
      Some(ReviewsOf(db, c.id)),
      Some(Map(EnrollmentsOf(db, c.id), EnrollmentId)))
  }

  /** `profiles?.full_name || 'Unknown Instructor'` */
  function InstructorName(p: Option<Profile>): (r: string)
    ensures r != ""
    ensures p.Some? && Truthy(p.value.fullName) ==> r == p.value.fullName.value
    ensures !(p.Some? && Truthy(p.value.fullName)) ==> r == UnknownInstructor
  {
    if p.Some? && Truthy(p.value.fullName) then p.value.fullName.value else UnknownInstructor
  }

  /** `reviews.reduce((sum, review) => sum + review.rating, 0)` */
  function SumRatings(rs: seq<ReviewRow>): real
  {
    if rs == [] then 0.0 else SumRatings(rs[..|rs| - 1]) + rs[|rs| - 1].rating
  }

  function MinRating(rs: seq<ReviewRow>): real
    requires rs != []
  {
    if |rs| == 1 then rs[0].rating
    else
      var m := MinRating(rs[..|rs| - 1]);
      if rs[|rs| - 1].rating < m then rs[|rs| - 1].rating else m
  }

  function MaxRating(rs: seq<ReviewRow>): real
    requires rs != []
  {
    if |rs| == 1 then rs[0].rating
    else
      var m := MaxRating(rs[..|rs| - 1]);
      if rs[|rs| - 1].rating > m then rs[|rs| - 1].rating else m
  }

  /** The sum of `n` ratings lies between `n` times the smallest and `n`
      times the largest. */
  lemma {:induction false} SumRatingsBounds(rs: seq<ReviewRow>)
    requires rs != []
    ensures |rs| as real * MinRating(rs) <= SumRatings(rs) <= |rs| as real * MaxRating(rs)
  {
    if |rs| > 1 {
      var init := rs[..|rs| - 1];
      SumRatingsBounds(init);
      var n := |init| as real;
      var x := rs[|rs| - 1].rating;
      var lo, hi := MinRating(rs), MaxRating(rs);
      assert SumRatings(rs) == SumRatings(init) + x;
      assert lo <= MinRating(init) && lo <= x;
      assert MaxRating(init) <= hi && x <= hi;
      ScaleMonotone(n, lo, MinRating(init));
      ScaleMonotone(n, MaxRating(init), hi);
      assert |rs| as real * lo == n * lo + lo;
      assert |rs| as real * hi == n * hi + hi;
    } else {
      assert rs[..0] == [];
    }
  }

  /** A total between `n * lo` and `n * hi` has a mean between `lo` and `hi`. */
  lemma MeanBetween(total: real, n: real, lo: real, hi: real)
    requires n > 0.0 && n * lo <= total <= n * hi
    ensures lo <= total / n <= hi
  {
    var m := total / n;
    assert m * n == total;
    if m < lo {
      ScaleMonotone(n, m, lo);
    }
    if m > hi {
      ScaleMonotone(n, hi, m);
    }
  }

  lemma ScaleMonotone(n: real, a: real, b: real)
    requires n >= 0.0 && a <= b
    ensures n * a <= n * b
  {
  }

  /** The rating: the mean of the review ratings, 0 when there are none. */
  function MeanRating(reviews: Option<seq<ReviewRow>>): (r: real)
    ensures reviews.None? || reviews.value == [] ==> r == 0.0
    ensures reviews.Some? && reviews.value != [] ==>
      MinRating(reviews.value) <= r <= MaxRating(reviews.value)
  {
    if reviews.Some? && |reviews.value| > 0 then
      var rs := reviews.value;
      var n := |rs| as real;
      SumRatingsBounds(rs);
      MeanBetween(SumRatings(rs), n, MinRating(rs), MaxRating(rs));
      SumRatings(rs) / n
    else 0.0
  }

  /** `enrollments?.length || 0` */
  function StudentCount(ids: Option<seq<string>>): nat
  {
    if ids.Some? then |ids.value| else 0
  }

  /** The flattening applied to every joined row by all three queries. */
  function ProcessCourse(j: JoinedCourse): (v: CourseView)
    ensures v.joined == j
    ensures v.instructorName == InstructorName(j.profile)
    ensures j.profile.Some? && Truthy(j.profile.value.fullName) ==>
      v.instructorName == j.profile.value.fullName.value
    ensures !(j.profile.Some? && Truthy(j.profile.value.fullName)) ==>
      v.instructorName == UnknownInstructor
    ensures j.reviews.None? || j.reviews.value == [] ==> v.rating == 0.0
    ensures j.reviews.Some? && j.reviews.value != [] ==>
      MinRating(j.reviews.value) <= v.rating <= MaxRating(j.reviews.value)
    ensures v.studentCount == if j.enrollmentIds.Some? then |j.enrollmentIds.value| else 0
  {
    CourseView(j, InstructorName(j.profile), MeanRating(j.reviews), StudentCount(j.enrollmentIds))
  }

  /** The processed course for a course row of the database. */
  function View(db: Db, c: CourseRow): CourseView
  {
    ProcessCourse(Embed(db, c))
  }

  function ViewIn(db: Db): CourseRow -> CourseView
  {
    c => View(db, c)
  }

  function CreatedAt(c: CourseRow): int
  {
    c.createdAt
  }

  function ViewCreatedAt(v: CourseView): int
  {
    v.joined.course.createdAt
  }

  function IsPublished(c: CourseRow): bool
  {
    c.isPublished
  }

  /** fetchCourses' query: `.eq('is_published', true)` then
      `.order('created_at', { ascending: false })`. */
  function PublishedRows(db: Db): seq<CourseRow>
  {
    SortDesc(Filter(db.courses, IsPublished), CreatedAt)
  }

  /** What fetchCourses stores on success. */
  function ListPublished(db: Db): seq<CourseView>
  {
    Map(PublishedRows(db), ViewIn(db))
  }

  /** The optional filters of searchCourses. */
  datatype SearchFilters = SearchFilters(
    category: Option<string>,
    level: Option<string>,
    priceRange: Option<(real, real)>,
    rating: Option<real>)

  const NoFilters := SearchFilters(None, None, None, None)

  /** `title ILIKE %q% OR description ILIKE %q%`, applied only when the query
      is truthy; a null description matches nothing. */
  predicate MatchesText(c: CourseRow, query: string)
  {
    query == ""
    || ContainsIgnoringCase(c.title, query)
    || (c.description.Some? && ContainsIgnoringCase(c.description.value, query))
  }

  /** Category and level are exact matches when given (and not empty); the
      price range includes both ends. */
  predicate MatchesFilters(c: CourseRow, f: SearchFilters)
  {
    && (Truthy(f.category) ==> c.category == f.category.value)
    && (Truthy(f.level) ==> c.level == f.level.value)
    && (f.priceRange.Some? ==> f.priceRange.value.0 <= c.price <= f.priceRange.value.1)
  }

  predicate SearchPredicate(query: string, f: SearchFilters, c: CourseRow)
  {
    c.isPublished && MatchesText(c, query) && MatchesFilters(c, f)
  }

  function SearchPredicateFor(query: string, f: SearchFilters): CourseRow -> bool
  {
    c => SearchPredicate(query, f, c)
  }

  /** searchCourses' remote query, ordered newest first. */
  function SearchRows(db: Db, query: string, f: SearchFilters): seq<CourseRow>
  {
    SortDesc(Filter(db.courses, SearchPredicateFor(query, f)), CreatedAt)
  }

  /** `if (filters?.rating)`: a present, non-zero threshold. */
  predicate RatingFilterOn(f: SearchFilters)
  {
    f.rating.Some? && f.rating.value != 0.0
  }

  function RatedAtLeast(threshold: real): CourseView -> bool
  {
    (v: CourseView) => v.rating >= threshold
  }

  /** searchCourses: the remote query, the flattening, then the
      minimum-rating filter on the derived rating. */
  function Search(db: Db, query: string, f: SearchFilters): seq<CourseView>
  {
    var processed := Map(SearchRows(db, query, f), ViewIn(db));
    if RatingFilterOn(f) then Filter(processed, RatedAtLeast(f.rating.value)) else processed
  }

  /** searchCourses with its error path: a failed query is rethrown as an
      `Error` with its message or "Failed to search courses". */
  function SearchCourses(db: Db, query: string, f: SearchFilters, failure: Option<Thrown>): Result<seq<CourseView>>
  {
    if failure.Some? then Err(MessageOf(failure.value, "Failed to search courses"))
    else Ok(Search(db, query, f))
  }

  /** Mapping the rows to their views keeps the newest-first order. */
  lemma MapViewKeepsOrder(db: Db, rows: seq<CourseRow>)
    requires SortedDesc(rows, CreatedAt)
    ensures SortedDesc(Map(rows, ViewIn(db)), ViewCreatedAt)
  {
    var vs := Map(rows, ViewIn(db));
    assert forall i :: 0 <= i < |rows| ==> ViewCreatedAt(vs[i]) == CreatedAt(rows[i]);
  }

  /** Searching with an empty query and no filters is the published-course
      listing: same rows, same derived fields, same order. */
  lemma SearchWithoutCriteriaIsListing(db: Db)
    ensures Search(db, "", NoFilters) == ListPublished(db)
  {
    FilterAgree(db.courses, SearchPredicateFor("", NoFilters), IsPublished);
  }

  /** Every search result is a published course of the database that matches
      the text query and the filters, with the view computed from its joined
      rows, and a rating no lower than an active threshold. */
  lemma SearchSound(db: Db, query: string, f: SearchFilters, v: CourseView)
    requires v in Search(db, query, f)
    ensures v.joined.course in db.courses
    ensures v == View(db, v.joined.course)
    ensures SearchPredicate(query, f, v.joined.course)
    ensures RatingFilterOn(f) ==> v.rating >= f.rating.value
  {
    var rows := SearchRows(db, query, f);
    var processed := Map(rows, ViewIn(db));
    assert v in processed;
    var i :| 0 <= i < |processed| && processed[i] == v;
    assert rows[i] in multiset(rows);
    assert rows[i] in Filter(db.courses, SearchPredicateFor(query, f));
  }

  /** Every published course that matches the text query and the filters and
      whose rating reaches an active threshold is in the result; in
      particular a rating exactly equal to the threshold is kept. */
  lemma SearchComplete(db: Db, query: string, f: SearchFilters, c: CourseRow)
    requires c in db.courses && SearchPredicate(query, f, c)
    requires RatingFilterOn(f) ==> View(db, c).rating >= f.rating.value
    ensures View(db, c) in Search(db, query, f)
  {
    var filtered := Filter(db.courses, SearchPredicateFor(query, f));
    FilterComplete(db.courses, SearchPredicateFor(query, f), c);
    var rows := SearchRows(db, query, f);
    assert c in multiset(filtered);
    assert c in rows;
    var i :| 0 <= i < |rows| && rows[i] == c;
    var processed := Map(rows, ViewIn(db));
    assert processed[i] == View(db, c);
    if RatingFilterOn(f) {
      FilterComplete(processed, RatedAtLeast(f.rating.value), View(db, c));
    }
  }

  /** Search results come newest first. */
  lemma SearchOrdered(db: Db, query: string, f: SearchFilters)
    ensures SortedDesc(Search(db, query, f), ViewCreatedAt)
  {
    var processed := Map(SearchRows(db, query, f), ViewIn(db));
    MapViewKeepsOrder(db, SearchRows(db, query, f));
    if RatingFilterOn(f) {
      FilterKeepsSorted(processed, RatedAtLeast(f.rating.value), ViewCreatedAt);
    }
  }

  /** The listing holds exactly the published courses, newest first. */
  lemma ListingExact(db: Db, c: CourseRow)
    ensures SortedDesc(ListPublished(db), ViewCreatedAt)
    ensures c in db.courses && c.isPublished ==> View(db, c) in ListPublished(db)
    ensures forall v :: v in ListPublished(db) ==>
      v.joined.course in db.courses && v.joined.course.isPublished && v == View(db, v.joined.course)
  {
    SearchWithoutCriteriaIsListing(db);
    SearchOrdered(db, "", NoFilters);
    if c in db.courses && c.isPublished {
      SearchComplete(db, "", NoFilters, c);
    }
    forall v | v in ListPublished(db)
      ensures v.joined.course in db.courses && v.joined.course.isPublished
      ensures v == View(db, v.joined.course)
    {
      SearchSound(db, "", NoFilters, v);
    }
  }

  /** A zero or absent threshold filters nothing. */
  lemma NoThresholdKeepsAll(db: Db, query: string, f: SearchFilters)
    requires !RatingFilterOn(f)
    ensures Search(db, query, f) == Map(SearchRows(db, query, f), ViewIn(db))
  {
  }

  /** Reviews rated on the 1..5 scale give a rating on that scale, and the
      rating is 0 exactly when there are no reviews. */
  lemma {:induction false} RatingOnScale(rs: seq<ReviewRow>)
    requires forall i :: 0 <= i < |rs| ==> 1.0 <= rs[i].rating <= 5.0
    ensures rs != [] ==> 1.0 <= MeanRating(Some(rs)) <= 5.0
    ensures MeanRating(Some(rs)) == 0.0 <==> rs == []
  {
    if rs != [] {
      RatingsWithin(rs);
    }
  }

  lemma {:induction false} RatingsWithin(rs: seq<ReviewRow>)
    requires rs != []
    requires forall i :: 0 <= i < |rs| ==> 1.0 <= rs[i].rating <= 5.0
    ensures 1.0 <= MinRating(rs) && MaxRating(rs) <= 5.0
  {
    if |rs| > 1 {
      RatingsWithin(rs[..|rs| - 1]);
    }
  }

  /** Reviews of 5, 4 and 3 stars give a rating of exactly 4. */
  lemma ThreeReviewsExample(a: ReviewRow, b: ReviewRow, c: ReviewRow)
    requires a.rating == 5.0 && b.rating == 4.0 && c.rating == 3.0
    ensures MeanRating(Some([a, b, c])) == 4.0
  {
    assert [a, b, c][..2] == [a, b];
    assert [a, b][..1] == [a];
    assert [a][..0] == [];
    assert SumRatings([a]) == 5.0;
    assert SumRatings([a, b]) == 9.0;
    assert SumRatings([a, b, c]) == 12.0;
  }

  /** The detail view of getCourseById: the processed course plus the
      instructor's avatar and the number of reviews. */
  datatype CourseDetail = CourseDetail(
    view: CourseView, instructorAvatar: Option<string>, reviewCount: nat)

  function HasId(id: string): CourseRow -> bool
  {
    (c: CourseRow) => c.id == id
  }

  function Detail(db: Db, c: CourseRow): CourseDetail
  {
    var v := View(db, c);
    CourseDetail(
      v,
      if v.joined.profile.Some? then v.joined.profile.value.avatarUrl else None,
      if v.joined.reviews.Some? then |v.joined.reviews.value| else 0)
  }

  /** getCourseById: `.eq('id', id).single()`, which yields a row only when
      exactly one matches (published or not). `failure` is the error the
      query reports, `notSingle` the one `.single()` reports otherwise; both
      are rethrown as an `Error` with their message or "Failed to fetch course". */
  function GetCourseById(db: Db, id: string, failure: Option<Thrown>, notSingle: Thrown): (r: Result<CourseDetail>)
    ensures r.Ok? <==> failure.None? && Count(db.courses, HasId(id)) == 1
    ensures r.Ok? ==> r.value.view.joined.course in db.courses && r.value.view.joined.course.id == id
    ensures r.Ok? ==> r.value.view == View(db, r.value.view.joined.course)
    ensures r.Ok? ==> r.value.reviewCount == |ReviewsOf(db, id)|
    ensures failure.Some? ==> r == Err(MessageOf(failure.value, "Failed to fetch course"))
    ensures failure.None? && Count(db.courses, HasId(id)) != 1 ==>
      r == Err(MessageOf(notSingle, "Failed to fetch course"))
  {
    if failure.Some? then Err(MessageOf(failure.value, "Failed to fetch course"))
    else
      var rows := Filter(db.courses, HasId(id));
      if |rows| != 1 then Err(MessageOf(notSingle, "Failed to fetch course"))
      else Ok(Detail(db, rows[0]))
  }

  /** The course found by id is the unique row with that id, with the same
      derived fields the listing shows for it. */
  lemma GetCourseByIdFindsTheRow(db: Db, id: string, c: CourseRow, notSingle: Thrown)
    requires c in db.courses && c.id == id && Count(db.courses, HasId(id)) == 1
    ensures GetCourseById(db, id, None, notSingle) == Ok(Detail(db, c))
    ensures c.isPublished ==> Detail(db, c).view in ListPublished(db)
  {
    var rows := Filter(db.courses, HasId(id));
    FilterComplete(db.courses, HasId(id), c);
    assert |rows| == 1 && c in rows;
    assert rows[0] == c;
    if c.isPublished {
      ListingExact(db, c);
    }
  }

  /** The state of the hook: the listing, the loading flag and the last error. */
  class CoursesHook {
    var courses: seq<CourseView>
    var loading: bool
    var error: Option<string>

    /** `useState([])`, `useState(true)`, `useState(null)` */
    constructor ()
      ensures courses == [] && loading && error == None
    {
      courses := [];
      loading := true;
      error := None;
    }

    /** fetchCourses. `failure` is the error the query reports, if any. On
        success the listing is replaced and an earlier error is left as it
        was; on failure the listing is kept. Loading ends either way. */
    method FetchCourses(db: Db, failure: Option<Thrown>)
      modifies this
      ensures !loading
      ensures failure.None? ==> courses == ListPublished(db) && error == old(error)
      ensures failure.Some? ==>
        courses == old(courses) && error == Some(MessageOf(failure.value, "An error occurred"))
    {
      loading := true;
      if failure.Some? {
        error := Some(MessageOf(failure.value, "An error occurred"));
      } else {
        courses := ListPublished(db);
      }
      loading := false;
    }
  }
}
