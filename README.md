# wesacademy, modelled in Dafny

wesacademy is an online-course site: a React front-end over a hosted
database. This project models the logic in that front-end, and in its
commit helper script, that decides something:

- how the course hooks turn joined database rows into course views
  (instructor name, mean rating, student and review counts);
- how search narrows the published catalogue;
- how the enrollment hook looks up, creates and updates a user's
  enrollments;
- the course-authoring wizard's step counter and its nested curriculum of
  sections and lessons;
- the commit-message suggestion drawn from an ordered prefix table, with
  its `type(scope): description` header (Conventional Commits 1.0.0);
- the small decision rules of the pages and components: initials and
  display name, the route guard, the enroll button, the card's discount and
  badges, the category tile, the home page's selections, the catalogue's
  category list and filter, the lesson player, and the filter panel.

Each source file has one module:

- `Common` (common.dfy): optional values, thrown values, `filter`/`map`/`slice`, `ORDER BY ... DESC`
- `Text` (text.dfy): `toLowerCase`, `toUpperCase`, `startsWith`, `trim`, `split`, `join`, decimal rendering
- `Schema` (schema.dfy): the database rows (profiles, courses, reviews, enrollments)
- `Courses` (courses.dfy): src/hooks/useCourses.ts
- `Enrollments` (enrollments.dfy): src/hooks/useEnrollments.ts
- `CourseWizard` (wizard.dfy): src/pages/instructor/CreateCoursePage.tsx
- `CommitMessage` (commit.dfy): scripts/git-commit.mjs
- `Header` (header.dfy): src/components/layout/Header.tsx
- `RouteGuard` (route.dfy): src/components/auth/ProtectedRoute.tsx
- `EnrollmentButton` (button.dfy): src/components/courses/EnrollmentButton.tsx
- `CourseCard` (card.dfy): src/components/courses/CourseCard.tsx
- `CategoryCard` (category.dfy): src/components/home/CategoryCard.tsx
- `HomePage` (home.dfy): src/pages/HomePage.tsx
- `CatalogPage` (catalog.dfy): src/pages/CoursesPage.tsx
- `CoursePlayer` (player.dfy): src/pages/CoursePlayer.tsx
- `FilterPanel` (filters.dfy): src/components/courses/CourseFilters.tsx

How the model is built:

- **Database.** The database is a value `Schema.Db` holding the four
  tables. A query is a function over it: a filter, then a stable descending
  sort for `ORDER BY ... DESC`, then a map that joins the related rows.
- **Hooks and components with state.** These become classes. The state
  slots are fields, and each handler is a method whose `ensures` gives the
  new state. Each `await` that can fail becomes an `Option<Thrown>`
  parameter. `Thrown` says whether the rejected value is an `Error`, whose
  `message` the code reads, or some other value, for which the code
  substitutes its fallback text.
- **Times.** "Now" is a parameter, an opaque `Timestamp`.
- **Numbers.** Prices, ratings and progress are `real`. `Math.round(x)`
  is `(x + 0.5).Floor`.

## Model

| member | source | states |
|---|---|---|
| Courses.InstructorName | src/hooks/useCourses.ts:57 | the instructor name is never empty: it is the joined profile's full name when that is non-empty, and "Unknown Instructor" otherwise |
| Courses.MeanRating | src/hooks/useCourses.ts:58-60 | with no reviews, or an absent review list, the rating is exactly 0; otherwise it lies between the smallest and the largest review rating |
| Courses.SumRatingsBounds | src/hooks/useCourses.ts:59 | the sum of n ratings lies between n times the minimum and n times the maximum |
| Courses.ProcessCourse | src/hooks/useCourses.ts:55-62 | a processed course keeps its row; its instructor name is the profile's full name when that is non-empty and "Unknown Instructor" otherwise; its rating is 0 without reviews and within the review range otherwise; its student count is the length of the joined enrollment list, or 0 when that list is absent |
| Courses.RatingOnScale | src/hooks/useCourses.ts:58-60 | when every review rates 1 to 5, a reviewed course's rating is in [1, 5], and the rating is 0 exactly when there are no reviews |
| Courses.RatingsWithin | src/hooks/useCourses.ts:58-60 | reviews rated 1 to 5 have a minimum of at least 1 and a maximum of at most 5 |
| Courses.ThreeReviewsExample | src/hooks/useCourses.ts:58-60 | reviews rated 5, 4 and 3 give the rating 4 |
| Courses.ListingExact | src/hooks/useCourses.ts:41-62 | the listing is ordered by created_at, newest first; it holds the view of every published course; every view in it comes from a published course of the table |
| Courses.MapViewKeepsOrder | src/hooks/useCourses.ts:50-55 | processing rows that are newest-first keeps the views newest-first |
| Courses.SearchWithoutCriteriaIsListing | src/hooks/useCourses.ts:116-162 | a search with an empty query and no filters returns exactly what fetchCourses lists |
| Courses.SearchSound | src/hooks/useCourses.ts:124-160 | every search result is the processed view of a table row that is published, matches the query in its title or description ignoring case, matches the category and level exactly, has a price inside the inclusive range, and has a rating of at least the threshold when a threshold is set |
| Courses.SearchComplete | src/hooks/useCourses.ts:124-160 | every published row that meets all the criteria, and whose rating reaches the threshold when one is set, appears in the results |
| Courses.SearchOrdered | src/hooks/useCourses.ts:144-159 | search results are ordered by created_at, newest first, even after the rating filter |
| Courses.NoThresholdKeepsAll | src/hooks/useCourses.ts:157-162 | with an absent or zero rating threshold, every matching row's view is returned |
| Courses.GetCourseById | src/hooks/useCourses.ts:72-106 | it succeeds exactly when the query does not fail and exactly one row has the id; the result is that row's processed view, with a review count equal to the number of its reviews; a failed query yields its message, or "Failed to fetch course"; without a failure, zero or several rows with the id yield the `.single()` error's message, or "Failed to fetch course" |
| Courses.GetCourseByIdFindsTheRow | src/hooks/useCourses.ts:72-103 | a unique row with the id is returned as its detail, whether or not it is published, and a published one is also in the listing |
| Courses.CoursesHook.constructor | src/hooks/useCourses.ts:28-30 | the hook starts with no courses, loading, and no error |
| Courses.CoursesHook.FetchCourses | src/hooks/useCourses.ts:36-70 | afterwards loading is false; on success courses is the published listing and error is left as it was; on failure courses is unchanged and error holds the thrown message, or "An error occurred" |
| Enrollments.ProcessEnrollment | src/hooks/useEnrollments.ts:60-66 | a processed enrollment keeps its row; its course is absent exactly when the join is missing; a present course carries the joined fields and the instructor's full name when that is non-empty, or "Unknown Instructor" otherwise |
| Enrollments.UserEnrollmentsExact | src/hooks/useEnrollments.ts:43-66 | the fetched list holds exactly the user's enrollment rows, each joined with its course, ordered by enrolled_at, newest first |
| Enrollments.UserEnrollmentSound | src/hooks/useEnrollments.ts:43-55 | every fetched enrollment comes from an enrollment row of that user |
| Enrollments.UserEnrollmentComplete | src/hooks/useEnrollments.ts:43-66 | every enrollment row of the user is fetched, joined with its course |
| Enrollments.UserEnrollmentsOrdered | src/hooks/useEnrollments.ts:56 | the fetched list is ordered by enrolled_at, newest first |
| Enrollments.InstructorNameAgreesWithListing | src/hooks/useEnrollments.ts:62-65 | an enrollment's embedded course shows the same instructor name that the course listing shows |
| Enrollments.GetEnrollment | src/hooks/useEnrollments.ts:129-135 | the result is present exactly when isEnrolled holds; it is an enrollment of the list for that course, and it is the first such enrollment in list order |
| Enrollments.EnrollTwice | src/hooks/useEnrollments.ts:76-106 | enrolling a user with no enrollment for the course succeeds and adds exactly one row; a second attempt fails with "Already enrolled in this course" and leaves the store as it is |
| Enrollments.MakePatch | src/hooks/useEnrollments.ts:113-117 | the patch always sets progress to the given value and last_accessed to the first clock reading, and includes completed_at, set to the second reading, exactly when progress is at least 100 |
| Enrollments.ProgressUpdate | src/hooks/useEnrollments.ts:111-118 | the update changes only the row with that id: its progress becomes the given value unclamped, last_accessed becomes the first clock reading, completed_at becomes the second reading when progress is at least 100 and is kept otherwise, and every other field stays |
| Enrollments.CompletionThreshold | src/hooks/useEnrollments.ts:116 | progress 100 completes an unfinished enrollment, and progress 99 does not |
| Enrollments.EnrollmentsHook.constructor | src/hooks/useEnrollments.ts:24-26 | the hook starts with no enrollments, loading, and no error |
| Enrollments.EnrollmentsHook.FetchEnrollments | src/hooks/useEnrollments.ts:37-74 | without a user nothing changes; otherwise loading ends false, and the list becomes the user's enrollments on success, while on failure error holds the thrown message or "Failed to fetch enrollments" |
| Enrollments.EnrollmentsHook.UserChanged | src/hooks/useEnrollments.ts:28-35 | signing out empties the list and stops loading; signing in fetches that user's enrollments |
| Enrollments.EnrollmentsHook.EnrollInCourse | src/hooks/useEnrollments.ts:76-107 | the outcome is, in order: "User must be logged in to enroll" with no user; "Already enrolled in this course" when exactly one enrollment exists; otherwise the insert's outcome. Only a successful insert adds a row (progress 0) to the store, and the list is then refreshed |
| Enrollments.EnrollmentsHook.UpdateProgress | src/hooks/useEnrollments.ts:109-127 | a failed update leaves everything as it was and reports its message or "Failed to update progress"; a successful one applies the progress patch to the row with that id and refreshes the list |
| CourseWizard.InitialCurriculum | src/pages/instructor/CreateCoursePage.tsx:16-21 | the draft starts with one untitled section that holds one empty lesson |
| CourseWizard.GetField | src/pages/instructor/CreateCoursePage.tsx:7-22 | every field of the draft holds a value of that field's kind |
| CourseWizard.SetFieldOnlyThatField | src/pages/instructor/CreateCoursePage.tsx:43-48 | after handleInputChange(f, v), field f reads v and every other field reads what it did before |
| CourseWizard.DraftByFields | src/pages/instructor/CreateCoursePage.tsx:7-22 | two drafts that agree on every field are equal, so the field list covers the whole draft |
| CourseWizard.AddSectionAppends | src/pages/instructor/CreateCoursePage.tsx:50-61 | addSection appends one untitled section with one empty lesson and keeps the existing sections |
| CourseWizard.AddLessonOnlyThere | src/pages/instructor/CreateCoursePage.tsx:63-75 | addLesson(i) appends one empty lesson to section i only, keeping its title and lessons; with i out of range nothing changes |
| CourseWizard.DropIndexCut | src/pages/instructor/CreateCoursePage.tsx:80-91 | filtering out the element at index i cuts exactly that element, or nothing when i is out of range |
| CourseWizard.RemoveAtCut | src/pages/instructor/CreateCoursePage.tsx:80-91 | removing index i is the sequence without its i-th element, or unchanged when i is out of range |
| CourseWizard.RemoveSectionExact | src/pages/instructor/CreateCoursePage.tsx:77-82 | removeSection(i) removes exactly section i and keeps the rest in order; an out-of-range i changes nothing; the last section can be removed |
| CourseWizard.RemoveLessonExact | src/pages/instructor/CreateCoursePage.tsx:84-96 | removeLesson(i, j) removes only lesson j of section i and keeps every other section; the last lesson can be removed |
| CourseWizard.EditsTouchOneField | src/pages/instructor/CreateCoursePage.tsx:303-348 | editing a section title, a lesson title or a lesson duration changes that one field at that position and nothing else |
| CourseWizard.StepAfterSubmits | src/pages/instructor/CreateCoursePage.tsx:100-106 | after n submits from the start, the step is 1 + n, capped at 3 |
| CourseWizard.Wizard.constructor | src/pages/instructor/CreateCoursePage.tsx:6-22 | the wizard starts at step 1 with the initial draft |
| CourseWizard.Wizard.SubmitLabel | src/pages/instructor/CreateCoursePage.tsx:445 | the submit button reads "Publish Course" exactly at step 3, and "Next" otherwise |
| CourseWizard.Wizard.Submit | src/pages/instructor/CreateCoursePage.tsx:98-107 | submit advances the step below 3 and keeps it at 3; it publishes exactly when the step was 3; the step stays in 1..3 |
| CourseWizard.Wizard.Previous | src/pages/instructor/CreateCoursePage.tsx:423-431 | Previous, offered only above step 1, goes back one step and keeps the step in 1..3 |
| CourseWizard.Wizard.InputChange | src/pages/instructor/CreateCoursePage.tsx:43-48 | the draft becomes the old draft with field f set to v |
| CourseWizard.Wizard.AddSectionClicked | src/pages/instructor/CreateCoursePage.tsx:50-61 | the curriculum becomes AddSection of the old one; the other fields stay |
| CourseWizard.Wizard.AddLessonClicked | src/pages/instructor/CreateCoursePage.tsx:63-75 | the curriculum becomes AddLesson of the old one; the other fields stay |
| CourseWizard.Wizard.RemoveSectionClicked | src/pages/instructor/CreateCoursePage.tsx:77-82 | the curriculum becomes RemoveSection of the old one; the other fields stay |
| CourseWizard.Wizard.RemoveLessonClicked | src/pages/instructor/CreateCoursePage.tsx:84-96 | the curriculum becomes RemoveLesson of the old one; the other fields stay |
| CourseWizard.Wizard.SectionTitleTyped | src/pages/instructor/CreateCoursePage.tsx:303-306 | the curriculum field is set to the curriculum with section i retitled |
| CourseWizard.Wizard.LessonTitleTyped | src/pages/instructor/CreateCoursePage.tsx:331-336 | the curriculum field is set to the curriculum with lesson j of section i retitled |
| CourseWizard.Wizard.LessonDurationTyped | src/pages/instructor/CreateCoursePage.tsx:343-348 | the curriculum field is set to the curriculum with that lesson's duration changed |
| CommitMessage.FirstMatch | scripts/git-commit.mjs:69-75 | the chosen entry is the first one, in declaration order, whose prefix starts some staged file; no earlier entry matches; the table length means no entry matched |
| CommitMessage.FirstMatchUnique | scripts/git-commit.mjs:69-75 | any index with that first-match property is the one the search finds |
| CommitMessage.SuggestCommitMessage | scripts/git-commit.mjs:48-89 | the loop, with its early exit, returns the suggestion for the staged-file list split from the trimmed output; a failed git call gives no suggestion |
| CommitMessage.SuggestionIffStaged | scripts/git-commit.mjs:50-61 | there is no suggestion exactly when the git output is empty or all whitespace, because that trims to "" and splits to [""] |
| CommitMessage.UnderSource | scripts/git-commit.mjs:11-23 | every table entry after the first, except docs/ and scripts/, has a prefix that starts with "src/" |
| CommitMessage.ShadowedRulesNeverChosen | scripts/git-commit.mjs:11-23 | the first match is always "src/", "docs/", "scripts/" or no entry at all: the ten more specific src/ entries can never be chosen |
| CommitMessage.SourceFileMeansFeatApp | scripts/git-commit.mjs:69-75 | any staged file under src/ makes the type and scope feat and app |
| CommitMessage.NoMatchIsChore | scripts/git-commit.mjs:64-84 | when no prefix matches, the message is "chore: " followed by the description, with no parentheses |
| CommitMessage.DescriptionCountsFiles | scripts/git-commit.mjs:78-81 | with other than one staged file, the description is "update N files" and N reads back as the number of files |
| CommitMessage.TwoFilesDescription | scripts/git-commit.mjs:78-81 | two staged files give the description "update 2 files" |
| CommitMessage.HeaderRoundTrip | scripts/git-commit.mjs:84 | a header built from a type without "(" or ":", a scope without ")", and any description parses back into those three parts, with the "(scope)" part present only when the scope is non-empty (Conventional Commits 1.0.0, section 1) |
| CommitMessage.UnscopedRoundTrip | scripts/git-commit.mjs:84 | "<type>: <description>" parses back into that type, no scope, and that description |
| CommitMessage.ScopedRoundTrip | scripts/git-commit.mjs:84 | "<type>(<scope>): <description>" with a non-empty scope parses back into those three parts |
| CommitMessage.RuleTypeWellFormed | scripts/git-commit.mjs:11-23 | every type in the table is non-empty and contains neither "(" nor ":" |
| CommitMessage.RuleScopeWellFormed | scripts/git-commit.mjs:11-23 | no scope in the table contains ")" |
| CommitMessage.SuggestionParses | scripts/git-commit.mjs:64-84 | every suggestion parses as a Conventional Commits header whose type and scope are the chosen entry's and whose description is the file description |
| CommitMessage.ConfirmedMessageChoice | scripts/git-commit.mjs:92-105 | the suggestion is kept when the answer is "yes" ignoring case, or the custom message is empty; otherwise the custom message is used |
| CommitMessage.CommitMessageNeverEmpty | scripts/git-commit.mjs:92-124 | whenever the script commits, the message is non-empty |
| CommitMessage.OneSourceFile | scripts/git-commit.mjs:69-84 | one staged file under src/, even under src/hooks/, is suggested as "feat(app): update <file>", not under the more specific entry |
| CommitMessage.TwoOtherFiles | scripts/git-commit.mjs:69-84 | two staged files outside every prefix suggest "chore: update 2 files" |
| CommitMessage.OutsideEveryPrefix | scripts/git-commit.mjs:11-23 | files whose first letter is neither "s" nor "d" match no entry of the table |
| Header.FirstCharsOfSplit | src/components/layout/Header.tsx:27-30 | the first characters of the space-separated words, joined, are the characters that start a word, that is, those at the start or after a space |
| Header.Initials | src/components/layout/Header.tsx:25-33 | the initials are at most two characters long |
| Header.InitialsAreWordStarts | src/components/layout/Header.tsx:25-33 | an absent or empty name gives "U"; any other name gives the upper-cased first characters of its words, in order, cut to two |
| Header.BlankNameHasNoInitials | src/components/layout/Header.tsx:26-32 | a name of spaces only gives the empty string, not "U" |
| Header.InitialsExample | src/components/layout/Header.tsx:25-33 | "jo wes" gives "JW" |
| Header.DisplayNameChoice | src/components/layout/Header.tsx:35-43 | a non-empty full name is shown as is; failing that, the email's text before its first "@"; failing that, "User" |
| Header.IsActiveExact | src/components/layout/Header.tsx:13 | a path is active on exactly its own pathname, and not on a longer one |
| RouteGuard.GuardOutcomes | src/components/auth/ProtectedRoute.tsx:14-32 | loading shows the spinner; otherwise a missing user on a protected route redirects to /login carrying the origin, a signed-in user on a public-only route redirects to /dashboard/student, and the children render otherwise; every redirect replaces the history entry |
| RouteGuard.RequireAuthDefault | src/components/auth/ProtectedRoute.tsx:10 | omitting requireAuth behaves as requireAuth true |
| RouteGuard.GuardSafety | src/components/auth/ProtectedRoute.tsx:22-32 | when the children render, the user is signed in exactly if the route requires it |
| EnrollmentButton.CaptionRule | src/components/courses/EnrollmentButton.tsx:79-86 | while enrolling the button reads "Enrolling..."; otherwise it reads "Enroll for Free" exactly when the price is 0, and "Enroll Now - $" followed by the price otherwise |
| EnrollmentButton.ViewRule | src/components/courses/EnrollmentButton.tsx:40-90 | the sign-in link shows exactly without a user; "Continue Learning" shows exactly for an enrolled user, with a progress line exactly when the first matching enrollment's progress is above 0; otherwise the button is disabled exactly while enrolling and the error line shows exactly for a non-empty error |
| EnrollmentButton.EnrollButtonState.constructor | src/components/courses/EnrollmentButton.tsx:16-17 | the button starts idle with no error |
| EnrollmentButton.EnrollButtonState.Begin | src/components/courses/EnrollmentButton.tsx:28-29 | enrolling starts, and the error is cleared |
| EnrollmentButton.EnrollButtonState.Settle | src/components/courses/EnrollmentButton.tsx:33-37 | enrolling stops on success and on failure; a failure records its message |
| EnrollmentButton.EnrollButtonState.HandleEnroll | src/components/courses/EnrollmentButton.tsx:22-38 | the hook's user never changes; without a user nothing changes, in the button or the hook; otherwise enrolling ends false, the error is the enroll outcome's message or none, the store changes as enrollInCourse changes it, and the hook's list, loading flag and error are left as they were on a failed enroll, or refreshed (the user's enrollments, or the refresh error's message) after a successful one |
| CourseCard.DiscountBadgeRule | src/components/courses/CourseCard.tsx:28-59 | the discount is 0 when the original price is absent or 0; the badge shows exactly when the original price is truthy and the percentage saved is at least one half |
| CourseCard.DiscountBounds | src/components/courses/CourseCard.tsx:28-30 | a price at or above the original price shows no badge; a price between 0 and the original price gives a discount between 0 and 100 |
| CourseCard.DiscountExample | src/components/courses/CourseCard.tsx:29 | 80 against 100 gives 20; 99.6 gives 0 (no badge); 99.5 rounds up to 1 |
| CourseCard.BadgeColumnRule | src/components/courses/CourseCard.tsx:41-60 | the bestseller badge shows exactly when isBestseller is true, the new badge exactly when isNew is true, and the "% OFF" badge exactly when the rounded discount is positive, carrying that discount; top to bottom the order is bestseller, new, discount, with no badge twice |
| CourseCard.VisibleTagsRule | src/components/courses/CourseCard.tsx:81-88 | the tag block shows exactly when tags are non-empty, and it shows the first three tags, or all of them when there are fewer, in order |
| CourseCard.ZeroOriginalPriceShowsZero | src/components/courses/CourseCard.tsx:109-111 | as written, an original price of 0 renders the text "0" where the struck-through price would be |
| CourseCard.StruckPriceRule | src/components/courses/CourseCard.tsx:109-111 | the corrected slot shows the struck-through original price exactly when it is truthy and renders no stray text; it agrees with the written code everywhere except at 0; whenever the discount badge shows, so does the struck price |
| CategoryCard.ReplaceFirst | src/components/home/CategoryCard.tsx:30 | replacing a character keeps the length |
| CategoryCard.ReplaceFirstOnlyFirst | src/components/home/CategoryCard.tsx:30 | a string pattern replaces only the first occurrence of the character; every other character stays |
| CategoryCard.ReplaceFirstAfter | src/components/home/CategoryCard.tsx:30 | in a first word without spaces, followed by a space and anything, only that space becomes "-" |
| CategoryCard.SlugOfWords | src/components/home/CategoryCard.tsx:30 | the slug is the lower-cased name with its first space, and only that one, replaced by "-" |
| CategoryCard.SlugExample | src/components/home/CategoryCard.tsx:30 | "Technology & Data" gives "technology-& data" |
| CategoryCard.CountTextReadsBack | src/components/home/CategoryCard.tsx:39-41 | the card text is the course count in decimal followed by " courses", and the number reads back as the count |
| CategoryCard.IconMapDomain | src/components/home/CategoryCard.tsx:5-26 | the icon lookup is defined for exactly code, database, palette, briefcase, megaphone and camera |
| CategoryCard.HomeCategoriesMissingIcons | src/components/home/CategoryCard.tsx:26-34 | the home page's categories "user", "dollar-sign" and "heart" find no icon component |
| CategoryCard.IconExtendsMap | src/components/home/CategoryCard.tsx:5-26 | the completed map agrees with the written one on its six names, is one-to-one, and draws an icon for every home-page category |
| HomePage.FeaturedRule | src/pages/HomePage.tsx:20 | a course is featured exactly when it is a bestseller or rated at least 4.5; a course rated 0 is featured exactly when it is a bestseller |
| HomePage.SelectionsAreFirstQualifying | src/pages/HomePage.tsx:19-27 | featured holds the first qualifying courses in order, at most 8, and all of them when fewer qualify; trending likewise holds at most 4 new or bestselling courses |
| HomePage.HomeSelections.constructor | src/pages/HomePage.tsx:13-14 | both selections start empty |
| HomePage.HomeSelections.CoursesChanged | src/pages/HomePage.tsx:16-30 | with courses present both selections are recomputed; with none both keep their previous values |
| CatalogPage.FirstIndexIsFirst | src/pages/CoursesPage.tsx:19 | no position before a value's first occurrence holds that value |
| CatalogPage.FirstIndexFound | src/pages/CoursesPage.tsx:19 | a value that occurs has its first occurrence inside the list |
| CatalogPage.DistinctMembers | src/pages/CoursesPage.tsx:19 | a value is in the deduplicated list exactly when it is in the input |
| CatalogPage.DistinctNoDuplicates | src/pages/CoursesPage.tsx:19 | no value appears twice in the deduplicated list |
| CatalogPage.FirstIndexInPrefix | src/pages/CoursesPage.tsx:19 | the first occurrence of a value in a prefix is its first occurrence in the whole sequence |
| CatalogPage.DistinctFirstOccurrenceOrder | src/pages/CoursesPage.tsx:19 | the deduplicated values appear in the order of their first occurrence |
| CatalogPage.DistinctPairOrdered | src/pages/CoursesPage.tsx:19 | adding one element keeps any two deduplicated values in first-occurrence order when the shorter list kept them in that order |
| CatalogPage.PrefixOrderKept | src/pages/CoursesPage.tsx:19 | two values of a prefix keep their first-occurrence order when the list grows |
| CatalogPage.LastIsNew | src/pages/CoursesPage.tsx:19 | a new last value first occurs at the end, after every value already present |
| CatalogPage.CategoriesRule | src/pages/CoursesPage.tsx:18-21 | the category list holds each category of a course, each once |
| CatalogPage.LocalFilterRule | src/pages/CoursesPage.tsx:40-45 | "all" shows every course; any other selection shows exactly the courses of that category |
| CatalogPage.SearchFiltersRule | src/pages/CoursesPage.tsx:29-31 | the search gets no category when the selection is "all" and the selection otherwise, and no other filter |
| CatalogPage.TrendingSidebarRule | src/pages/CoursesPage.tsx:52-54 | the sidebar holds the first new or bestselling courses in order, at most 3, and all of them when fewer qualify |
| CatalogPage.ResultBlocks | src/pages/CoursesPage.tsx:292-314 | Load More shows exactly when not searching and at least 12 results are shown, and never together with the no-results block |
| CatalogPage.Catalog.constructor | src/pages/CoursesPage.tsx:11-15 | the page starts with an empty search term, the category "all", no results, and no search running |
| CatalogPage.Catalog.FilterCourses | src/pages/CoursesPage.tsx:24-50 | a non-blank term shows the search results, or nothing when the search fails, and searching ends false; a blank term shows the local category filter: the whole listing under "all", otherwise exactly the courses of the chosen category |
| CatalogPage.Catalog.ClearFilters | src/pages/CoursesPage.tsx:302-305 | Clear Filters resets the term to "" and the category to "all", so the term is blank and the next FilterCourses shows the whole listing |
| CoursePlayer.TotalIsSumOfSections | src/pages/CoursePlayer.tsx:306-316 | the lesson total in the sidebar header equals the sum of the sections' lesson counts |
| CoursePlayer.SumOfSectionCountsCons | src/pages/CoursePlayer.tsx:306 | the sum of section counts is the first section's count plus the sum over the rest |
| CoursePlayer.MockCurriculumHasTenLessons | src/pages/CoursePlayer.tsx:32-64 | the page's curriculum has 10 lessons |
| CoursePlayer.CompletingGrows | src/pages/CoursePlayer.tsx:76-78 | completing a lesson adds it and keeps every lesson completed before; nothing else is added; completing a completed lesson changes nothing |
| CoursePlayer.CaptionAfterClick | src/pages/CoursePlayer.tsx:136-150 | the button reads "Completed" exactly when the current lesson is in the set, and it does after it is clicked |
| CoursePlayer.InitialCaption | src/pages/CoursePlayer.tsx:143-150 | on the first visit the current lesson "3" reads "Mark as Complete" |
| CoursePlayer.Player.constructor | src/pages/CoursePlayer.tsx:20 | the completed set starts as {"1", "2"} |
| CoursePlayer.Player.HandleLessonComplete | src/pages/CoursePlayer.tsx:76-78 | the completed set becomes the old set plus the lesson |
| FilterPanel.ToggleFlipsOnlyThatKey | src/components/courses/CourseFilters.tsx:15-20 | toggling a section flips whether its options show and leaves the other five as they were |
| FilterPanel.ToggleTwiceRestores | src/components/courses/CourseFilters.tsx:15-20 | toggling the same section twice restores the panel |
| FilterPanel.TogglesCommute | src/components/courses/CourseFilters.tsx:15-20 | toggles of two sections give the same panel in either order |
| FilterPanel.Panel.constructor | src/components/courses/CourseFilters.tsx:6-13 | all six sections start expanded |
| FilterPanel.Panel.ToggleSection | src/components/courses/CourseFilters.tsx:15-20 | the panel becomes the old panel with that section toggled |

## Left out

- Every network call to the hosted database is left out. A query is a
  function over a `Schema.Db` value, and a failed call is a `Thrown`
  parameter.
- The `ilike` wildcards `%` and `_` inside the search text are not
  modelled; the query is a plain substring. Text that breaks the `.or()`
  filter syntax is not modelled either.
- Case folding covers ASCII only, in the search, the "yes" answer, the
  initials and the category slug (CategoryCard.Slug). JavaScript's full
  Unicode `toLowerCase` and `toUpperCase` are not modelled.
- Header.Initials: JavaScript strings index UTF-16 code units, so
  `word[0]` and `.slice(0, 2)` can cut a character outside the Basic
  Multilingual Plane in half, leaving a lone surrogate. Here a `char` is a
  whole Unicode scalar value, so such a name keeps its whole first
  character.
- Ties in `ORDER BY created_at DESC` and `enrolled_at DESC` keep table
  order. The backend leaves that order unspecified.
- Floating point is not modelled: ratings, prices, progress and the
  discount are `real`. NaN and IEEE rounding of the mean are left out.
- Enrollments.EnrollmentsHook.EnrollInCourse: the existence check and the
  insert are two separate requests. A concurrent insert between them is not
  modelled.
- Unmounting during a fetch, and the order in which overlapping requests
  resolve, are not modelled.
- Enrollments.EnrollmentsHook.EnrollInCourse: the already-enrolled check
  uses `.single()`, which returns data only when exactly one row matches.
  As in the code, the model inserts again when two or more rows already
  exist; the existence check itself failing counts as "not found", as the
  code ignores that error.
- Courses.CoursesHook.FetchCourses: as in the code, a successful fetch
  does not clear an earlier error.
- Courses.GetCourseById: as in the code, it does not require the course
  to be published. The sections, lessons and review authors it also joins
  are not modelled; only the view and the review count are.
- The current time comes from `new Date().toISOString()`. Here it is an
  opaque `Timestamp` parameter. Enrollments.MakePatch reads the clock twice,
  once for last_accessed and once for completed_at, so it takes two
  parameters, and nothing relates the two readings.
- EnrollmentButton.Caption: `priceText` stands for JavaScript's
  number-to-text conversion of the price.
- CourseWizard.Wizard.InputChange: `handleInputChange` accepts a value of
  any type. The model requires the value to fit the field (`Fits`), as
  every call site in the page does.
- The edit handlers in CreateCoursePage.tsx shallow-copy the curriculum
  and then assign into the nested section and lesson objects, which the
  previous state shares. The model edits by value, so that aliasing is not
  captured.
- CatalogPage.Catalog.FilterCourses: the search term is passed to the
  search untrimmed, as in the code. A failed search's console message is
  not modelled.
- CatalogPage.Catalog.FilterCourses: the model is one run of the effect.
  In the code, `searchCourses` is a new closure on every render
  (src/hooks/useCourses.ts:109) and is listed among the effect's
  dependencies (src/pages/CoursesPage.tsx:50), so the effect runs again
  after every render. With a non-blank term each run sets `isSearching`
  and sends a new search. With a category chosen and a blank term each run
  stores a freshly filtered array. Either way the page keeps re-rendering
  and re-filtering. That repetition is not modelled.
- CommitMessage.SuggestCommitMessage: running `git diff`, `git add`,
  `git commit` and `git push`, and the terminal prompts, are left out. The
  git output and the user's answers are inputs, and a failed `git diff` is
  an absent output.
- The commit message is placed inside a shell command with double quotes.
  Quoting and escaping of that command are not modelled.
- Rendering is not modelled: JSX, CSS classes, icons, `toLocaleString`
  number formatting. Of a component, the model keeps the values it decides
  to show.
- The page logic in CoursePlayer.tsx other than the completed set, the
  button text and the lesson total is static mock data, and it is left
  out.

## Findings

| source | as written | input that shows it | evidently intended | confidence | as-written member | corrected member |
|---|---|---|---|---|---|---|
| src/components/courses/CourseCard.tsx:109-111 | `{course.originalPrice && <span>...}` renders the left operand when it is falsy, and React renders the number 0 as text | a course with originalPrice 0 shows a stray "0" next to its price | show the struck-through original price only when it is a positive number, and nothing otherwise | high, not executed | CourseCard.ZeroOriginalPriceShowsZero | CourseCard.StruckPriceRule |
| src/components/home/CategoryCard.tsx:5-26 | the icon map has six keys, but the home page's categories in src/data/courseData.ts use the icons "user", "dollar-sign" and "heart" | the categories "Personal Development", "Finance & Investing" and "Health & Fitness" look up `undefined` and render it as a component | a component for every icon name the category data uses | high, not executed | CategoryCard.HomeCategoriesMissingIcons | CategoryCard.IconExtendsMap |
