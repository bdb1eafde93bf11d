/** The enroll button on a course page: which of its three forms shows, its
    caption, and the enrolling/error state around a call to the enrollment
    hook. */
module EnrollmentButton {
  import opened Common
  import opened Enrollments

  /** The three forms: the sign-in link, the continue link with an optional
      progress line, and the enroll button with its caption, its disabled
      flag and an optional error line. */
  datatype ButtonView =
    | SignInLink
    | ContinueLearning(link: string, progressLine: Option<real>)
    | EnrollButton(caption: string, disabled: bool, errorLine: Option<string>)

  /** The caption. `priceText` is the price as JavaScript prints the number. */
  function Caption(isEnrolling: bool, coursePrice: real, priceText: string): string
  {
    if isEnrolling then "Enrolling..."
    else if coursePrice == 0.0 then "Enroll for Free"
    else "Enroll Now - $" + priceText
  }

  /** Free courses, and only they, say "Enroll for Free"; a priced course
      shows its price after "Enroll Now - $", whatever that text is. */
  lemma CaptionRule(isEnrolling: bool, coursePrice: real, priceText: string)
    ensures !isEnrolling ==>
      (Caption(isEnrolling, coursePrice, priceText) == "Enroll for Free" <==> coursePrice == 0.0)
    ensures !isEnrolling && coursePrice != 0.0 ==>
      Caption(isEnrolling, coursePrice, priceText) == "Enroll Now - $" + priceText
    ensures isEnrolling ==> Caption(isEnrolling, coursePrice, priceText) == "Enrolling..."
  {
    if !isEnrolling && coursePrice != 0.0 {
      var c := "Enroll Now - $" + priceText;
      assert c[7] == 'N';
    }
  }

  /** The form the button takes for the signed-in state, the user's
      enrollments, and the component's own state. */
  function View(signedIn: bool, enrollments: seq<Enrollment>, courseId: string, coursePrice: real,
                priceText: string, isEnrolling: bool, error: Option<string>): ButtonView
  {
    if !signedIn then SignInLink
    else if IsEnrolled(enrollments, courseId) then
      var e := GetEnrollment(enrollments, courseId);
      ContinueLearning("/course/" + courseId + "/learn",
        if e.Some? && e.value.joined.row.progress > 0.0 then Some(e.value.joined.row.progress) else None)
    else
      EnrollButton(Caption(isEnrolling, coursePrice, priceText), isEnrolling,
        if Truthy(error) then error else None)
  }

  /** Signed out: the sign-in link. Enrolled: the continue link, with the
      progress of the course's first enrollment when it is above 0.
      Otherwise the button, disabled exactly while an enrollment runs. */
  lemma ViewRule(signedIn: bool, es: seq<Enrollment>, courseId: string, coursePrice: real,
                 priceText: string, isEnrolling: bool, error: Option<string>)
    ensures var v := View(signedIn, es, courseId, coursePrice, priceText, isEnrolling, error);
      && (v.SignInLink? <==> !signedIn)
      && (v.ContinueLearning? <==> signedIn && IsEnrolled(es, courseId))
      && (v.ContinueLearning? ==>
            forall i ::
              (0 <= i < |es| && es[i].CourseId() == courseId &&
               forall j :: 0 <= j < i ==> es[j].CourseId() != courseId) ==>
              v.progressLine == if es[i].joined.row.progress > 0.0 then Some(es[i].joined.row.progress) else None)
      && (v.EnrollButton? ==> v.disabled == isEnrolling && (v.errorLine.Some? <==> Truthy(error)))
  {
  }

  /** The component's own state. */
  class EnrollButtonState {
    var isEnrolling: bool
    var error: Option<string>

    constructor ()
      ensures !isEnrolling && error == None
    {
      isEnrolling := false;
      error := None;
    }

    /** The state while the enrollment is awaited: busy, no error. */
    method Begin()
      modifies this
      ensures isEnrolling && error == None
    {
      isEnrolling := true;
      error := None;
    }

    /** The state once it settles: the error's message on failure, and not
        busy either way. The hook always throws an `Error`, so its message is
        what shows. */
    method Settle(r: Result<()>)
      modifies this
      ensures !isEnrolling
      ensures error == (if r.Err? then Some(r.message) else old(error))
    {
      if r.Err? {
        error := Some(r.message);
      }
      isEnrolling := false;
    }

    /** handleEnroll: nothing without a user; otherwise busy and cleared,
        the hook's enrollInCourse, then settled. */
    method HandleEnroll(hook: EnrollmentsHook, courseId: string, checkFails: bool,
                        insertFailure: Option<Thrown>, refreshFailure: Option<Thrown>,
                        newId: string, now: Timestamp)
      modifies this, hook`store, hook`enrollments, hook`loading, hook`error
      ensures hook.user == old(hook.user)
      ensures hook.user.None? ==>
        && isEnrolling == old(isEnrolling) && error == old(error)
        && hook.store == old(hook.store) && hook.enrollments == old(hook.enrollments)
        && hook.loading == old(hook.loading) && hook.error == old(hook.error)
      ensures hook.user.Some? ==>
        var r := EnrollOutcome(old(hook.store), hook.user, courseId, checkFails, insertFailure);
        && !isEnrolling
        && error == (if r.Err? then Some(r.message) else None)
        && hook.store == StoreAfterEnroll(old(hook.store), hook.user, courseId, checkFails, insertFailure, newId, now)
        && (r.Err? ==>
              hook.enrollments == old(hook.enrollments) && hook.loading == old(hook.loading) &&
              hook.error == old(hook.error))
        && (r.Ok? && refreshFailure.None? ==>
              hook.enrollments == UserEnrollments(hook.store, hook.user.value) && !hook.loading &&
              hook.error == old(hook.error))
        && (r.Ok? && refreshFailure.Some? ==>
              hook.enrollments == old(hook.enrollments) && !hook.loading &&
              hook.error == Some(MessageOf(refreshFailure.value, "Failed to fetch enrollments")))
    {
      if hook.user.None? {
        return;
      }
      Begin();
      var r := hook.EnrollInCourse(courseId, checkFails, insertFailure, refreshFailure, newId, now);
      Settle(r);
    }
  }
}
