/** The course catalogue page: the category choices, the search box and
    category filter, the trending sidebar, and the empty-result and
    load-more rules. */
module CatalogPage {
  import opened Common
  import opened Text
  import opened Courses

  /** The position of the first occurrence of `x` in `s`, or `|s|` when
      there is none. */
  function FirstIndex(s: seq<string>, x: string): (i: nat)
    ensures i <= |s|
    ensures i < |s| ==> s[i] == x
  {
    if s == [] then 0 else if s[0] == x then 0 else 1 + FirstIndex(s[1..], x)
  }

  /** No earlier position holds `x`, so `x` is absent exactly when the
      position is `|s|`. */
  lemma {:induction false} FirstIndexIsFirst(s: seq<string>, x: string, j: int)
    requires 0 <= j < FirstIndex(s, x)
    ensures s[j] != x
  {
    if j > 0 {
      assert s[1..][j - 1] == s[j];
      FirstIndexIsFirst(s[1..], x, j - 1);
    }
  }

  /** A value that occurs has its first position inside the sequence. */
  lemma FirstIndexFound(s: seq<string>, x: string)
    requires x in s
    ensures FirstIndex(s, x) < |s|
  {
    var k :| 0 <= k < |s| && s[k] == x;
    if FirstIndex(s, x) == |s| {
      FirstIndexIsFirst(s, x, k);
    }
  }

  /** `[...new Set(s)]`: each distinct value once, at its first occurrence. */
  function Distinct(s: seq<string>): seq<string>
  {
    if s == [] then []
    else
      var rest := Distinct(s[..|s| - 1]);
      if s[|s| - 1] in rest then rest else rest + [s[|s| - 1]]
  }

  /** The distinct values are exactly the values of the input. */
  lemma {:induction false} DistinctMembers(s: seq<string>, y: string)
    ensures y in Distinct(s) <==> y in s
  {
    if s != [] {
      DistinctMembers(s[..|s| - 1], y);
      assert s == s[..|s| - 1] + [s[|s| - 1]];
    }
  }

  /** Each distinct value appears once. */
  lemma {:induction false} DistinctNoDuplicates(s: seq<string>)
    ensures forall i, j :: 0 <= i < j < |Distinct(s)| ==> Distinct(s)[i] != Distinct(s)[j]
  {
    if s != [] {
      DistinctNoDuplicates(s[..|s| - 1]);
    }
  }

  /** The first occurrence of a value in a prefix is its first occurrence
      in the whole sequence. */
  lemma {:induction false} FirstIndexInPrefix(s: seq<string>, n: nat, x: string)
    requires n <= |s| && x in s[..n]
    ensures FirstIndex(s, x) == FirstIndex(s[..n], x) < n
  {
    assert s[..n][0] == s[0];
    if s[0] != x {
      assert s[..n][1..] == s[1..][..n - 1];
      FirstIndexInPrefix(s[1..], n - 1, x);
    }
  }

  /** The distinct values keep the order in which they first occur. */
  lemma {:induction false} DistinctFirstOccurrenceOrder(s: seq<string>)
    ensures forall i, j :: 0 <= i < j < |Distinct(s)| ==>
      FirstIndex(s, Distinct(s)[i]) < FirstIndex(s, Distinct(s)[j]) < |s|
  {
    if s != [] {
      DistinctFirstOccurrenceOrder(s[..|s| - 1]);
      forall i, j | 0 <= i < j < |Distinct(s)|
        ensures FirstIndex(s, Distinct(s)[i]) < FirstIndex(s, Distinct(s)[j]) < |s|
      {
        DistinctPairOrdered(s, i, j);
      }
    }
  }

  /** One step of the induction: a pair of the result is in first-occurrence
      order when that pair, if both come from the prefix, is in order there. */
  lemma DistinctPairOrdered(s: seq<string>, i: int, j: int)
    requires s != []
    requires 0 <= i < j < |Distinct(s)|
    requires j < |Distinct(s[..|s| - 1])| ==>
      FirstIndex(s[..|s| - 1], Distinct(s[..|s| - 1])[i]) < FirstIndex(s[..|s| - 1], Distinct(s[..|s| - 1])[j])
    ensures FirstIndex(s, Distinct(s)[i]) < FirstIndex(s, Distinct(s)[j]) < |s|
  {
    var init := s[..|s| - 1];
    var rest := Distinct(init);
    var a := rest[i];
    assert Distinct(s)[i] == a;
    DistinctMembers(init, a);
    if j < |rest| {
      var b := rest[j];
      assert Distinct(s)[j] == b;
      DistinctMembers(init, b);
      PrefixOrderKept(s, a, b);
    } else {
      var x := s[|s| - 1];
      assert Distinct(s) == if x in rest then rest else rest + [x];
      if x in rest {
        assert false;
      }
      assert Distinct(s)[j] == x;
      DistinctMembers(init, s[|s| - 1]);
      LastIsNew(s, a);
    }
  }

  /** Two values of the prefix keep their first-occurrence order. */
  lemma PrefixOrderKept(s: seq<string>, a: string, b: string)
    requires s != [] && a in s[..|s| - 1] && b in s[..|s| - 1]
    requires FirstIndex(s[..|s| - 1], a) < FirstIndex(s[..|s| - 1], b)
    ensures FirstIndex(s, a) < FirstIndex(s, b) < |s|
  {
    FirstIndexInPrefix(s, |s| - 1, a);
    FirstIndexInPrefix(s, |s| - 1, b);
  }

  /** A value of the prefix occurs before a last element that is new. */
  lemma LastIsNew(s: seq<string>, y: string)
    requires s != [] && y in s[..|s| - 1] && s[|s| - 1] !in s[..|s| - 1]
    ensures FirstIndex(s, y) < FirstIndex(s, s[|s| - 1]) == |s| - 1
  {
    FirstIndexInPrefix(s, |s| - 1, y);
    FirstIndexFound(s, s[|s| - 1]);
  }

  function CategoryOf(v: CourseView): string
  {
    v.joined.course.category
  }

  /** The category choices: the listing's categories, each once, in order of
      first appearance. */
  function Categories(courses: seq<CourseView>): seq<string>
  {
    Distinct(Map(courses, CategoryOf))
  }

  lemma CategoriesRule(courses: seq<CourseView>, c: string)
    ensures c in Categories(courses) <==> exists i :: 0 <= i < |courses| && courses[i].joined.course.category == c
    ensures var r := Categories(courses);
      forall i, j :: 0 <= i < j < |r| ==> r[i] != r[j]
  {
    var cats := Map(courses, CategoryOf);
    DistinctMembers(cats, c);
    DistinctNoDuplicates(cats);
    if c in cats {
      var i :| 0 <= i < |cats| && cats[i] == c;
      assert courses[i].joined.course.category == c;
    }
  }

  function InCategory(category: string): CourseView -> bool
  {
    (v: CourseView) => v.joined.course.category == category
  }

  /** The filter without a search term: everything for "all", otherwise the
      courses of the chosen category in listing order. */
  function LocalFilter(courses: seq<CourseView>, selected: string): seq<CourseView>
  {
    if selected == "all" then courses else Filter(courses, InCategory(selected))
  }

  lemma LocalFilterRule(courses: seq<CourseView>, selected: string, v: CourseView)
    ensures selected == "all" ==> LocalFilter(courses, selected) == courses
    ensures selected != "all" ==>
      (v in LocalFilter(courses, selected) <==> v in courses && v.joined.course.category == selected)
  {
    if selected != "all" && v in courses && v.joined.course.category == selected {
      FilterComplete(courses, InCategory(selected), v);
    }
  }

  /** The filters handed to searchCourses: the category unless "all". */
  function SearchFiltersFor(selected: string): (f: SearchFilters)
  {
    SearchFilters(if selected != "all" then Some(selected) else None, None, None, None)
  }

  lemma SearchFiltersRule(selected: string)
    ensures SearchFiltersFor(selected).category == (if selected == "all" then None else Some(selected))
    ensures SearchFiltersFor(selected).level.None? && SearchFiltersFor(selected).priceRange.None?
    ensures !RatingFilterOn(SearchFiltersFor(selected))
  {
  }

  /** The sidebar: the first three new or bestselling courses. */
  function TrendingSidebar(courses: seq<CourseView>): seq<CourseView>
  {
    Prefix(Filter(courses, IsNewOrBestseller), 3)
  }

  predicate IsNewOrBestseller(v: CourseView)
  {
    v.joined.course.isNew || v.joined.course.isBestseller
  }

  lemma TrendingSidebarRule(courses: seq<CourseView>)
    ensures var t := TrendingSidebar(courses);
      && |t| <= 3
      && (forall i :: 0 <= i < |t| ==> IsNewOrBestseller(t[i]) && t[i] in courses)
      && t == Filter(courses, IsNewOrBestseller)[..|t|]
      && (|t| == 3 || t == Filter(courses, IsNewOrBestseller))
  {
    FirstMatching(courses, IsNewOrBestseller, 3);
  }

  /** `!isSearching && filteredCourses.length === 0` */
  predicate ShowsNoResults(isSearching: bool, n: nat)
  {
    !isSearching && n == 0
  }

  /** `!isSearching && filteredCourses.length > 0 && filteredCourses.length >= 12` */
  predicate ShowsLoadMore(isSearching: bool, n: nat)
  {
    !isSearching && n > 0 && n >= 12
  }

  /** Load More shows exactly when not searching with at least 12 results,
      and never together with the empty-result block. */
  lemma ResultBlocks(isSearching: bool, n: nat)
    ensures ShowsLoadMore(isSearching, n) <==> !isSearching && n >= 12
    ensures !(ShowsLoadMore(isSearching, n) && ShowsNoResults(isSearching, n))
  {
  }

  /** The page's search state. */
  class Catalog {
    var searchTerm: string
    var selectedCategory: string
    var filtered: seq<CourseView>
    var isSearching: bool

    constructor ()
      ensures searchTerm == "" && selectedCategory == "all" && filtered == [] && !isSearching
    {
      searchTerm := "";
      selectedCategory := "all";
      filtered := [];
      isSearching := false;
    }

    /** filterCourses. A term that is not blank goes, untrimmed, to
        searchCourses over `db` with the chosen category; a failed search
        (`failure`) empties the results. Otherwise the listing `courses` is
        filtered here. */
    method FilterCourses(courses: seq<CourseView>, db: Schema.Db, failure: Option<Thrown>)
      modifies this`filtered, this`isSearching
      ensures Trim(searchTerm) != "" ==> !isSearching
      ensures Trim(searchTerm) != "" ==>
        match SearchCourses(db, searchTerm, SearchFiltersFor(selectedCategory), failure)
        case Ok(found) => filtered == found
        case Err(_) => filtered == []
      ensures Trim(searchTerm) == "" ==>
        filtered == LocalFilter(courses, selectedCategory) && isSearching == old(isSearching)
      ensures Trim(searchTerm) == "" && selectedCategory == "all" ==> filtered == courses
      ensures Trim(searchTerm) == "" && selectedCategory != "all" ==>
        forall v :: v in filtered <==> v in courses && v.joined.course.category == selectedCategory
    {
      if Trim(searchTerm) != "" {
        isSearching := true;
        var result := SearchCourses(db, searchTerm, SearchFiltersFor(selectedCategory), failure);
        if result.Ok? {
          filtered := result.value;
        } else {
          filtered := [];
        }
        isSearching := false;
      } else {
        filtered := LocalFilter(courses, selectedCategory);
        forall v {
          LocalFilterRule(courses, selectedCategory, v);
        }
      }
    }

    /** The Clear Filters button. */
    method ClearFilters()
      modifies this`searchTerm, this`selectedCategory
      ensures searchTerm == "" && selectedCategory == "all"
      ensures Trim(searchTerm) == ""
    {
      searchTerm := "";
      selectedCategory := "all";
    }
  }
}
