/** The home page's course selections: the featured strip (bestsellers and
    highly rated courses) and the trending strip (new courses and
    bestsellers), taken from the hook's listing when it arrives. */
module HomePage {
  import opened Common
  import opened Courses

  /** `course.is_bestseller || (course.rating && course.rating >= 4.5)` */
  predicate IsFeatured(v: CourseView)
  {
    v.joined.course.isBestseller || (v.rating != 0.0 && v.rating >= 4.5)
  }

  /** `course.is_new || course.is_bestseller` */
  predicate IsTrending(v: CourseView)
  {
    v.joined.course.isNew || v.joined.course.isBestseller
  }

  function Featured(courses: seq<CourseView>): seq<CourseView>
  {
    Prefix(Filter(courses, IsFeatured), 8)
  }

  function Trending(courses: seq<CourseView>): seq<CourseView>
  {
    Prefix(Filter(courses, IsTrending), 4)
  }

  /** A course is featured for being a bestseller or for a rating of at
      least 4.5; an unrated course (rating 0) only for being a bestseller. */
  lemma FeaturedRule(v: CourseView)
    ensures IsFeatured(v) <==> v.joined.course.isBestseller || v.rating >= 4.5
    ensures v.rating == 0.0 ==> (IsFeatured(v) <==> v.joined.course.isBestseller)
  {
  }

  /** Featured: the first (up to) eight qualifying courses in listing order;
      Trending: the first (up to) four. */
  lemma SelectionsAreFirstQualifying(courses: seq<CourseView>)
    ensures var f := Featured(courses);
      && |f| <= 8
      && (forall i :: 0 <= i < |f| ==> IsFeatured(f[i]) && f[i] in courses)
      && f == Filter(courses, IsFeatured)[..|f|]
      && (|f| == 8 || f == Filter(courses, IsFeatured))
    ensures var t := Trending(courses);
      && |t| <= 4
      && (forall i :: 0 <= i < |t| ==> IsTrending(t[i]) && t[i] in courses)
      && t == Filter(courses, IsTrending)[..|t|]
      && (|t| == 4 || t == Filter(courses, IsTrending))
  {
    FirstMatching(courses, IsFeatured, 8);
    FirstMatching(courses, IsTrending, 4);
  }

  /** The page's two selections. */
  class HomeSelections {
    var featured: seq<CourseView>
    var trending: seq<CourseView>

    constructor ()
      ensures featured == [] && trending == []
    {
      featured := [];
      trending := [];
    }

    /** The effect on `[courses]`: both strips are recomputed from a
        non-empty listing; an empty listing leaves them as they were. */
    method CoursesChanged(courses: seq<CourseView>)
      modifies this
      ensures |courses| > 0 ==> featured == Featured(courses) && trending == Trending(courses)
      ensures |courses| == 0 ==> featured == old(featured) && trending == old(trending)
    {
      if |courses| > 0 {
        featured := Featured(courses);
        trending := Trending(courses);
      }
    }
  }
}
