/** The lesson player: the set of completed lessons, the "mark as complete"
    button, and the lesson counts in the curriculum sidebar. */
module CoursePlayer {

  datatype PlayerLesson = PlayerLesson(id: string, title: string, duration: string)
  datatype PlayerSection = PlayerSection(section: string, lessons: seq<PlayerLesson>)

  /** The page's curriculum: three sections of four, three and three lessons,
      with lesson "3" the current one. */
  const MockCurriculum: seq<PlayerSection> := [
    PlayerSection("Getting Started", [
      PlayerLesson("1", "Course Introduction", "5:23"),
      PlayerLesson("2", "Development Environment Setup", "8:45"),
      PlayerLesson("3", "Introduction to HTML", "12:34"),
      PlayerLesson("4", "HTML Elements and Tags", "15:22")]),
    PlayerSection("HTML Fundamentals", [
      PlayerLesson("5", "Document Structure", "10:15"),
      PlayerLesson("6", "Forms and Input Types", "18:45"),
      PlayerLesson("7", "Semantic HTML", "14:30")]),
    PlayerSection("CSS Styling", [
      PlayerLesson("8", "CSS Selectors", "16:20"),
      PlayerLesson("9", "Box Model", "13:55"),
      PlayerLesson("10", "Flexbox Layout", "22:15")])
  ]

  const CurrentLessonId: string := "3"

  /** `curriculum.reduce((total, section) => total + section.lessons.length, 0)`,
      folding from the left with the running total `acc`. */
  function TotalLessons(sections: seq<PlayerSection>, acc: nat): nat
  {
    if sections == [] then acc else TotalLessons(sections[1..], acc + |sections[0].lessons|)
  }

  /** The sum of the per-section counts each section header shows. */
  function SumOfSectionCounts(sections: seq<PlayerSection>): nat
  {
    if sections == [] then 0
    else SumOfSectionCounts(sections[..|sections| - 1]) + |sections[|sections| - 1].lessons|
  }

  lemma {:induction false} SumOfSectionCountsCons(sections: seq<PlayerSection>)
    requires sections != []
    ensures SumOfSectionCounts(sections) == |sections[0].lessons| + SumOfSectionCounts(sections[1..])
  {
    if |sections| > 1 {
      var init := sections[..|sections| - 1];
      SumOfSectionCountsCons(init);
      assert init[1..] == sections[1..][..|sections[1..]| - 1];
    }
  }

  /** The total in the sidebar header is the sum of the section counts. */
  lemma {:induction false} TotalIsSumOfSections(sections: seq<PlayerSection>, acc: nat)
    ensures TotalLessons(sections, acc) == acc + SumOfSectionCounts(sections)
  {
    if sections != [] {
      TotalIsSumOfSections(sections[1..], acc + |sections[0].lessons|);
      SumOfSectionCountsCons(sections);
    }
  }

  lemma MockCurriculumHasTenLessons()
    ensures TotalLessons(MockCurriculum, 0) == 10
  {
    var c := MockCurriculum;
    assert |c[0].lessons| == 4 && |c[1].lessons| == 3 && |c[2].lessons| == 3;
    assert c[1..][1..] == [c[2]];
    assert c[1..][1..][1..] == [];
    assert TotalLessons(c[1..][1..][1..], 10) == 10;
  }

  /** handleLessonComplete: `new Set([...prev, lessonId])`. */
  function Completed(done: set<string>, lessonId: string): set<string>
  {
    done + {lessonId}
  }

  /** Completing adds the lesson and forgets none; completing it again
      changes nothing. */
  lemma CompletingGrows(done: set<string>, lessonId: string, other: string)
    ensures lessonId in Completed(done, lessonId)
    ensures other in done ==> other in Completed(done, lessonId)
    ensures other in Completed(done, lessonId) ==> other in done || other == lessonId
    ensures Completed(Completed(done, lessonId), lessonId) == Completed(done, lessonId)
    ensures lessonId in done ==> Completed(done, lessonId) == done
  {
  }

  /** The button's text. */
  function CompleteCaption(done: set<string>, currentId: string): string
  {
    if currentId in done then "Completed" else "Mark as Complete"
  }

  /** The button reads "Completed" exactly for a completed lesson, and does
      so once it has been clicked. */
  lemma CaptionAfterClick(done: set<string>, currentId: string)
    ensures CompleteCaption(done, currentId) == "Completed" <==> currentId in done
    ensures CompleteCaption(Completed(done, currentId), currentId) == "Completed"
  {
    assert "Completed" != "Mark as Complete" by {
      assert "Completed"[0] != "Mark as Complete"[0];
    }
  }

  class Player {
    var completedLessons: set<string>

    /** `useState(new Set(['1', '2']))` */
    constructor ()
      ensures completedLessons == {"1", "2"}
    {
      completedLessons := {"1", "2"};
    }

    method HandleLessonComplete(lessonId: string)
      modifies this
      ensures completedLessons == Completed(old(completedLessons), lessonId)
    {
      completedLessons := completedLessons + {lessonId};
    }
  }

  /** On the first visit the current lesson "3" is not yet complete. */
  lemma InitialCaption()
    ensures CompleteCaption({"1", "2"}, CurrentLessonId) == "Mark as Complete"
  {
  }
}
