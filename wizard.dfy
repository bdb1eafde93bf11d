/** The instructor's course-creation wizard: a three-step form over a course
    draft whose curriculum is a list of sections, each a list of lessons.
    The curriculum operations build new lists; the wizard object holds the
    current step and the draft and replaces them. */
module CourseWizard {
  import opened Common

  /** An uploaded file, known here only by its name. */
  type FileRef = string

  datatype Lesson = Lesson(title: string, duration: string, videoFile: Option<FileRef>)
  datatype Section = Section(sectionTitle: string, lessons: seq<Lesson>)

  /** The form's state: the text inputs, the thumbnail and the curriculum. */
  datatype CourseDraft = CourseDraft(
    title: string, subtitle: string, description: string, category: string,
    level: string, language: string, price: string, thumbnail: Option<FileRef>,
    curriculum: seq<Section>)

  const EmptyLesson: Lesson := Lesson("", "", None)
  const EmptySection: Section := Section("", [EmptyLesson])

  /** The draft the page starts with: everything blank except the language,
      and one untitled section holding one blank lesson. */
  const InitialDraft: CourseDraft :=
    CourseDraft("", "", "", "", "", "English", "", None, [EmptySection])

  lemma InitialCurriculum()
    ensures |InitialDraft.curriculum| == 1
    ensures InitialDraft.curriculum[0].sectionTitle == ""
    ensures InitialDraft.curriculum[0].lessons == [Lesson("", "", None)]
  {
  }

  /** The keys `handleInputChange` is called with. */
  datatype Field = Title | Subtitle | Description | Category | Level | Language | Price
                 | Thumbnail | Curriculum

  /** The values the form passes for them. */
  datatype Value = Text(text: string) | File(file: Option<FileRef>) | Sections(sections: seq<Section>)

  /** The kind of value each key holds. */
  predicate Fits(f: Field, v: Value)
  {
    match f
    case Thumbnail => v.File?
    case Curriculum => v.Sections?
    case _ => v.Text?
  }

  function GetField(d: CourseDraft, f: Field): (v: Value)
    ensures Fits(f, v)
  {
    match f
    case Title => Text(d.title)
    case Subtitle => Text(d.subtitle)
    case Description => Text(d.description)
    case Category => Text(d.category)
    case Level => Text(d.level)
    case Language => Text(d.language)
    case Price => Text(d.price)
    case Thumbnail => File(d.thumbnail)
    case Curriculum => Sections(d.curriculum)
  }

  /** `{ ...prev, [field]: value }` */
  function SetField(d: CourseDraft, f: Field, v: Value): CourseDraft
    requires Fits(f, v)
  {
    match f
    case Title => d.(title := v.text)
    case Subtitle => d.(subtitle := v.text)
    case Description => d.(description := v.text)
    case Category => d.(category := v.text)
    case Level => d.(level := v.text)
    case Language => d.(language := v.text)
    case Price => d.(price := v.text)
    case Thumbnail => d.(thumbnail := v.file)
    case Curriculum => d.(curriculum := v.sections)
  }

  /** handleInputChange sets the one field and leaves every other as it was. */
  lemma SetFieldOnlyThatField(d: CourseDraft, f: Field, v: Value, g: Field)
    requires Fits(f, v)
    ensures GetField(SetField(d, f, v), g) == if g == f then v else GetField(d, g)
  {
  }

  /** A draft is determined by its fields. */
  lemma DraftByFields(d: CourseDraft, e: CourseDraft)
    requires forall f :: GetField(d, f) == GetField(e, f)
    ensures d == e
  {
    assert GetField(d, Title) == GetField(e, Title);
    assert GetField(d, Subtitle) == GetField(e, Subtitle);
    assert GetField(d, Description) == GetField(e, Description);
    assert GetField(d, Category) == GetField(e, Category);
    assert GetField(d, Level) == GetField(e, Level);
    assert GetField(d, Language) == GetField(e, Language);
    assert GetField(d, Price) == GetField(e, Price);
    assert GetField(d, Thumbnail) == GetField(e, Thumbnail);
    assert GetField(d, Curriculum) == GetField(e, Curriculum);
  }

  /** addSection */
  function AddSection(c: seq<Section>): seq<Section>
  {
    c + [EmptySection]
  }

  lemma AddSectionAppends(c: seq<Section>)
    ensures |AddSection(c)| == |c| + 1
    ensures AddSection(c)[..|c|] == c
    ensures AddSection(c)[|c|] == Section("", [Lesson("", "", None)])
  {
  }

  /** `curriculum.map((section, index) => index === i ? change(section) : section)`:
      `AddLesson`, `RemoveLesson`. */
  function AddLesson(c: seq<Section>, i: int): seq<Section>
  {
    seq(|c|, k requires 0 <= k < |c| =>
      if k == i then c[k].(lessons := c[k].lessons + [EmptyLesson]) else c[k])
  }

  /** addLesson(i) gives section i one more, blank, lesson at its end and
      touches nothing else; an index outside the list changes nothing. */
  lemma AddLessonOnlyThere(c: seq<Section>, i: int)
    ensures |AddLesson(c, i)| == |c|
    ensures forall k :: 0 <= k < |c| && k != i ==> AddLesson(c, i)[k] == c[k]
    ensures 0 <= i < |c| ==>
      && AddLesson(c, i)[i].sectionTitle == c[i].sectionTitle
      && |AddLesson(c, i)[i].lessons| == |c[i].lessons| + 1
      && AddLesson(c, i)[i].lessons[..|c[i].lessons|] == c[i].lessons
      && AddLesson(c, i)[i].lessons[|c[i].lessons|] == Lesson("", "", None)
    ensures !(0 <= i < |c|) ==> AddLesson(c, i) == c
  {
  }

  /** `s.filter((_, index) => index !== i)`, with `from` the index of `s[0]`. */
  function DropIndex<T>(s: seq<T>, i: int, from: int): (r: seq<T>)
    ensures |r| <= |s|
  {
    if s == [] then []
    else (if from == i then [] else [s[0]]) + DropIndex(s[1..], i, from + 1)
  }

  function RemoveAt<T>(s: seq<T>, i: int): seq<T>
  {
    DropIndex(s, i, 0)
  }

  lemma {:induction false} DropIndexCut<T>(s: seq<T>, i: int, from: int)
    ensures DropIndex(s, i, from) ==
      if from <= i < from + |s| then s[..i - from] + s[i - from + 1..] else s
  {
    if s != [] {
      DropIndexCut(s[1..], i, from + 1);
      if from == i {
        assert s[i - from + 1..] == s[1..];
      } else if from < i < from + |s| {
        assert s[..i - from] == [s[0]] + s[1..][..i - from - 1];
        assert s[i - from + 1..] == s[1..][i - from..];
      } else {
        assert s == [s[0]] + s[1..];
      }
    }
  }

  /** Filtering by index removes exactly the element at that index and keeps
      the order of the rest; an index outside the list removes nothing. */
  lemma RemoveAtCut<T>(s: seq<T>, i: int)
    ensures RemoveAt(s, i) == if 0 <= i < |s| then s[..i] + s[i + 1..] else s
  {
    DropIndexCut(s, i, 0);
  }

  /** removeSection */
  function RemoveSection(c: seq<Section>, i: int): seq<Section>
  {
    RemoveAt(c, i)
  }

  /** removeLesson */
  function RemoveLesson(c: seq<Section>, i: int, j: int): seq<Section>
  {
    seq(|c|, k requires 0 <= k < |c| =>
      if k == i then c[k].(lessons := RemoveAt(c[k].lessons, j)) else c[k])
  }

  /** removeSection(i) drops section i and nothing else. Nothing keeps the
      curriculum from becoming empty. */
  lemma RemoveSectionExact(c: seq<Section>, i: int)
    ensures 0 <= i < |c| ==> |RemoveSection(c, i)| == |c| - 1
    ensures forall k :: 0 <= k < i < |c| ==> RemoveSection(c, i)[k] == c[k]
    ensures forall k :: 0 <= i <= k < |c| - 1 ==> RemoveSection(c, i)[k] == c[k + 1]
    ensures !(0 <= i < |c|) ==> RemoveSection(c, i) == c
    ensures RemoveSection([EmptySection], 0) == []
  {
    RemoveAtCut(c, i);
    RemoveAtCut([EmptySection], 0);
  }

  /** removeLesson(i, j) drops lesson j of section i only; a section may be
      left with no lessons. */
  lemma RemoveLessonExact(c: seq<Section>, i: int, j: int)
    ensures |RemoveLesson(c, i, j)| == |c|
    ensures forall k :: 0 <= k < |c| && k != i ==> RemoveLesson(c, i, j)[k] == c[k]
    ensures 0 <= i < |c| ==>
      && RemoveLesson(c, i, j)[i].sectionTitle == c[i].sectionTitle
      && RemoveLesson(c, i, j)[i].lessons ==
           (if 0 <= j < |c[i].lessons| then c[i].lessons[..j] + c[i].lessons[j + 1..] else c[i].lessons)
    ensures RemoveLesson([EmptySection], 0, 0) == [Section("", [])]
  {
    if 0 <= i < |c| {
      RemoveAtCut(c[i].lessons, j);
    }
    RemoveAtCut(EmptySection.lessons, 0);
  }

  /** The section-title input: the copied list's section i gets the new title. */
  function EditSectionTitle(c: seq<Section>, i: int, t: string): seq<Section>
    requires 0 <= i < |c|
  {
    c[i := c[i].(sectionTitle := t)]
  }

  /** The lesson-title input. */
  function EditLessonTitle(c: seq<Section>, i: int, j: int, t: string): seq<Section>
    requires 0 <= i < |c| && 0 <= j < |c[i].lessons|
  {
    c[i := c[i].(lessons := c[i].lessons[j := c[i].lessons[j].(title := t)])]
  }

  /** The lesson-duration input. */
  function EditLessonDuration(c: seq<Section>, i: int, j: int, t: string): seq<Section>
    requires 0 <= i < |c| && 0 <= j < |c[i].lessons|
  {
    c[i := c[i].(lessons := c[i].lessons[j := c[i].lessons[j].(duration := t)])]
  }

  /** Two curricula that differ at most in lesson j of section i. */
  predicate SameOutsideLesson(c: seq<Section>, d: seq<Section>, i: int, j: int)
    requires 0 <= i < |c| && 0 <= j < |c[i].lessons|
  {
    && |d| == |c|
    && (forall k :: 0 <= k < |c| && k != i ==> d[k] == c[k])
    && d[i].sectionTitle == c[i].sectionTitle
    && |d[i].lessons| == |c[i].lessons|
    && (forall l :: 0 <= l < |c[i].lessons| && l != j ==> d[i].lessons[l] == c[i].lessons[l])
    && d[i].lessons[j].videoFile == c[i].lessons[j].videoFile
  }

  /** Each edit changes one field at one position: the section title edit
      touches only that title, the lesson edits only that lesson's title or
      duration. */
  lemma EditsTouchOneField(c: seq<Section>, i: int, j: int, t: string)
    requires 0 <= i < |c| && 0 <= j < |c[i].lessons|
    ensures |EditSectionTitle(c, i, t)| == |c|
    ensures forall k :: 0 <= k < |c| && k != i ==> EditSectionTitle(c, i, t)[k] == c[k]
    ensures EditSectionTitle(c, i, t)[i] == Section(t, c[i].lessons)
    ensures SameOutsideLesson(c, EditLessonTitle(c, i, j, t), i, j)
    ensures EditLessonTitle(c, i, j, t)[i].lessons[j] ==
      Lesson(t, c[i].lessons[j].duration, c[i].lessons[j].videoFile)
    ensures SameOutsideLesson(c, EditLessonDuration(c, i, j, t), i, j)
    ensures EditLessonDuration(c, i, j, t)[i].lessons[j] ==
      Lesson(c[i].lessons[j].title, t, c[i].lessons[j].videoFile)
  {
  }

  /** The step after a submit: the next one below 3, and 3 stays 3. */
  function NextStep(step: int): int
  {
    if step < 3 then step + 1 else step
  }

  /** The step reached from step 1 after `n` submits. */
  function StepAfter(n: nat): int
  {
    if n == 0 then 1 else NextStep(StepAfter(n - 1))
  }

  /** From step 1, submits climb one step at a time and stop at 3. */
  lemma {:induction false} StepAfterSubmits(n: nat)
    ensures StepAfter(n) == if n < 2 then 1 + n else 3
  {
    if n > 0 {
      StepAfterSubmits(n - 1);
    }
  }

  /** The wizard page: the current step and the draft. */
  class Wizard {
    var step: int
    var draft: CourseDraft

    ghost predicate Valid()
      reads this
    {
      1 <= step <= 3
    }

    constructor ()
      ensures Valid()
      ensures step == 1 && draft == InitialDraft
    {
      step := 1;
      draft := InitialDraft;
    }

    /** The Previous button is shown only past the first step. */
    function CanGoBack(): bool
      reads this
    {
      step > 1
    }

    /** The submit button's label. */
    function SubmitLabel(): (caption: string)
      reads this
      ensures caption == "Publish Course" <==> step == 3
      ensures caption == "Next" <==> step != 3
    {
      if step == 3 then "Publish Course" else "Next"
    }

    /** handleSubmit: the next step, or the final submission on step 3
        (`published`), which leaves the step where it is. */
    method Submit() returns (published: bool)
      requires Valid()
      modifies this`step
      ensures Valid()
      ensures step == NextStep(old(step))
      ensures published <==> old(step) == 3
    {
      if step < 3 {
        step := step + 1;
        published := false;
      } else {
        published := true;
      }
    }

    /** The Previous button. */
    method Previous()
      requires Valid() && CanGoBack()
      modifies this`step
      ensures Valid()
      ensures step == old(step) - 1
    {
      step := step - 1;
    }

    method InputChange(f: Field, v: Value)
      requires Fits(f, v)
      modifies this`draft
      ensures draft == SetField(old(draft), f, v)
    {
      draft := SetField(draft, f, v);
    }

    method AddSectionClicked()
      modifies this`draft
      ensures draft == old(draft).(curriculum := AddSection(old(draft).curriculum))
    {
      draft := draft.(curriculum := AddSection(draft.curriculum));
    }

    method AddLessonClicked(i: int)
      modifies this`draft
      ensures draft == old(draft).(curriculum := AddLesson(old(draft).curriculum, i))
    {
      draft := draft.(curriculum := AddLesson(draft.curriculum, i));
    }

    method RemoveSectionClicked(i: int)
      modifies this`draft
      ensures draft == old(draft).(curriculum := RemoveSection(old(draft).curriculum, i))
    {
      draft := draft.(curriculum := RemoveSection(draft.curriculum, i));
    }

    method RemoveLessonClicked(i: int, j: int)
      modifies this`draft
      ensures draft == old(draft).(curriculum := RemoveLesson(old(draft).curriculum, i, j))
    {
      draft := draft.(curriculum := RemoveLesson(draft.curriculum, i, j));
    }

    /** The curriculum inputs hand the edited copy to handleInputChange. */
    method SectionTitleTyped(i: int, t: string)
      requires 0 <= i < |draft.curriculum|
      modifies this`draft
      ensures draft == SetField(old(draft), Curriculum, Sections(EditSectionTitle(old(draft).curriculum, i, t)))
    {
      InputChange(Curriculum, Sections(EditSectionTitle(draft.curriculum, i, t)));
    }

    method LessonTitleTyped(i: int, j: int, t: string)
      requires 0 <= i < |draft.curriculum| && 0 <= j < |draft.curriculum[i].lessons|
      modifies this`draft
      ensures draft == SetField(old(draft), Curriculum, Sections(EditLessonTitle(old(draft).curriculum, i, j, t)))
    {
      InputChange(Curriculum, Sections(EditLessonTitle(draft.curriculum, i, j, t)));
    }

    method LessonDurationTyped(i: int, j: int, t: string)
      requires 0 <= i < |draft.curriculum| && 0 <= j < |draft.curriculum[i].lessons|
      modifies this`draft
      ensures draft == SetField(old(draft), Curriculum, Sections(EditLessonDuration(old(draft).curriculum, i, j, t)))
    {
      InputChange(Curriculum, Sections(EditLessonDuration(draft.curriculum, i, j, t)));
    }
  }
}
