# Cohesion Academy: the decision rules and list operations of the pages

Cohesion Academy is a React learning site backed by Supabase. Most of its code is markup
and backend calls. This project models the rules the pages apply between those calls:

- the route guard;
- the course player's content gate, quiz scoring, answer selection and favourite toggle;
- the catalogue's category list and course filter;
- the announcement banner's message filter, dismissal memory and rotation;
- the hero carousel's event window and index arithmetic;
- the admin page's settings defaults, event save request, member search, unverified count,
  hidden-instructor statistics and banner/terms list edits;
- the course manager's quiz editor, new-unit form, publish toggle and scoped course query;
- the member dashboard's favourite and hidden lists, unhide action, role panels and
  invite-code upgrade.

The backend is an abstract store: each page method takes what the store answered as a
parameter, and the invite-code upgrade takes and returns a store value. Failures of store
calls are boolean parameters; an update the row-level access policy refuses is a flag of
its own, since it returns no error and changes no row. Dates and instants are integers. Strings are `seq<char>`,
lower-cased over ASCII. Page state that React keeps in `useState` becomes the fields of a
class whose methods are the event handlers and timer callbacks.

Modules:

- Shared: `Wrappers`, `Seqs`, `Text`, `Maps`, `Json`, `Records`, `DateWindow`.
- One per page or component: `ProtectedRoute`, `CoursePlayer`, `Courses`, `Marquee`,
  `HeroSlider`, `AdminDashboard` and `HiddenStats`, `CourseManagement`, `Dashboard`.

Three behaviours of the code worth noting:

- The banner and the carousel exclude an item only when its end date is *before* now,
  so the end bound is inclusive (`DateWindow.InWindow`).
- A non-empty role outside 'student' | 'instructor' | 'admin' gets rank -1 from `indexOf`.
  It is therefore not treated as a student, and it is redirected even from a 'student' route
  (`ProtectedRoute.UnknownRoleRedirected`).
- `Math.round(score / n * 100)` is modelled by exact half-up rounding on rationals,
  `(200 * score + n) / (2 * n)`. The floating-point division is not modelled.

## Model

| member | source | states |
|---|---|---|
| ProtectedRoute.UserRank | src/components/ProtectedRoute.tsx:28-29 | the rank is in [-1, 2]; it is -1 exactly when `profile?.role \|\| 'student'` is not one of the three names |
| ProtectedRoute.RequiredRank | src/components/ProtectedRoute.tsx:28-30 | 'student', 'instructor' and 'admin' require ranks 0, 1 and 2 |
| ProtectedRoute.Guard | src/components/ProtectedRoute.tsx:10-39 | loading gives the loading screen and nothing else; no user gives a /login redirect carrying the current location, whatever the requirement; a user without a requirement sees the page; the dashboard redirect happens exactly when a signed-in user is under-ranked |
| ProtectedRoute.MissingRoleIsStudent | src/components/ProtectedRoute.tsx:29 | a missing profile, a missing role and the empty role rank as 'student': pass 'student', fail 'instructor' |
| ProtectedRoute.KnownRoleRanks | src/components/ProtectedRoute.tsx:28-30 | each of the three role names ranks at the position the route requires for it |
| ProtectedRoute.SatisfiesMonotone | src/components/ProtectedRoute.tsx:28-38 | passing a requirement implies passing every lower-ranked one |
| ProtectedRoute.AdminPassesAll | src/components/ProtectedRoute.tsx:28-38 | 'admin' passes every requirement |
| ProtectedRoute.UnknownRoleRedirected | src/components/ProtectedRoute.tsx:29-34 | an unrecognised non-empty role is sent to /dashboard even by a 'student' route |
| CoursePlayer.MediaUnlocked | src/pages/CoursePlayer.tsx:23 | media is unlocked iff the course is free, or the subscription predicate holds on `subscription_end`, or the role is 'admin' |
| CoursePlayer.WithAnswer | src/pages/CoursePlayer.tsx:236-240 | after choosing option o for question q the answer at q is o and every other position reads as before, holes included |
| CoursePlayer.CountCorrect | src/pages/CoursePlayer.tsx:100-103 | the number of correctly answered questions is at most the number of questions |
| CoursePlayer.ScoreQuiz | src/pages/CoursePlayer.tsx:100-103 | the `forEach` counting loop computes CountCorrect |
| CoursePlayer.RoundedPercent | src/pages/CoursePlayer.tsx:106 | an empty quiz gives NaN; otherwise the percentage is the half-up rounding of 100·correct/total, lies in [0, 100], is 100 when all are correct and 0 when none are |
| CoursePlayer.RoundingBounds | src/pages/CoursePlayer.tsx:106 | the integer formula brackets 100·correct/total within one half and respects the bounds |
| CoursePlayer.SubmitResult | src/pages/CoursePlayer.tsx:96-107 | no unit or no quiz data: nothing happens; otherwise the score is RoundedPercent of the count |
| CoursePlayer.FormSubmissionInRange | src/pages/CoursePlayer.tsx:96-107 | a submission from the rendered form (unlocked, at least one question) gives a percentage in [0, 100], never NaN |
| CoursePlayer.AllCorrectCountsAll | src/pages/CoursePlayer.tsx:100-103 | every question answered correctly counts every question |
| CoursePlayer.NoAnswersCountsNone | src/pages/CoursePlayer.tsx:100-103 | with no answers (after a unit switch) nothing counts: an unanswered index never matches |
| CoursePlayer.CountDiffersAtOne | src/pages/CoursePlayer.tsx:100-103 | answer vectors that differ at one position differ in count by at most one, and not at all past the quiz |
| CoursePlayer.ChoosingCorrectNeverLowers | src/pages/CoursePlayer.tsx:100-103 | choosing the correct option of a question never lowers the count |
| CoursePlayer.TwoOfThreeScores67 | src/pages/CoursePlayer.tsx:100-106 | key [1, 2, 0] answered [1, 2, 1] scores 67 |
| CoursePlayer.Player.constructor | src/pages/CoursePlayer.tsx:13-21 | the initial state: no course, no units, no answers, no score, loading |
| CoursePlayer.Player.Load | src/pages/CoursePlayer.tsx:40-78 | the fetched course and units are stored when present; the current unit becomes the first unit in `order_index` order; loading ends; the favourite flag is read only for a signed-in user |
| CoursePlayer.Player.SelectAnswer | src/pages/CoursePlayer.tsx:235-240 | before submission the answers become WithAnswer of the old answers; after submission (inputs disabled) nothing changes |
| CoursePlayer.Player.SubmitQuiz | src/pages/CoursePlayer.tsx:96-107 | without quiz data the state is kept; otherwise the score is SubmitResult and the quiz is marked submitted |
| CoursePlayer.Player.SwitchUnit | src/pages/CoursePlayer.tsx:292-297 | the chosen unit becomes current, with no score, not submitted and no answers |
| CoursePlayer.Player.ToggleFavorite | src/pages/CoursePlayer.tsx:80-94 | no user: alert and no request; favourited: delete and clear the flag; otherwise insert and set the flag only when the insert succeeded, alerting on failure |
| Seqs.Dedup | src/pages/Courses.tsx:17 | `Array.from(new Set(xs))`: no duplicates, nothing new, nothing lost |
| Seqs.DedupFirstAppearance | src/pages/Courses.tsx:17 | the distinct values come out in order of first appearance |
| Courses.CourseCategories | src/pages/Courses.tsx:17 | the truthy categories are exactly the non-empty categories of the courses |
| Courses.Categories | src/pages/Courses.tsx:17 | '全部' first, then each non-empty category of the courses exactly once |
| Courses.CategoriesInFirstAppearanceOrder | src/pages/Courses.tsx:17 | the listed categories follow the order of their first course |
| Courses.CategoriesDistinct | src/pages/Courses.tsx:17 | when no course is itself categorised '全部', the whole list has no duplicates |
| Courses.FilteredCourses | src/pages/Courses.tsx:46-53 | a course is shown iff it passes the hidden, search and category tests; a hidden instructor's course never appears; the result is an order-preserving subsequence of the fetched list |
| Courses.SearchIgnoresQueryCase | src/pages/Courses.tsx:46-53 | two queries that are equal after lower-casing show the same courses in the same order |
| Courses.EmptyQueryMatches | src/pages/Courses.tsx:49-50 | the empty query matches every course |
| Courses.NoRestrictionShowsAll | src/pages/Courses.tsx:46-53 | nothing hidden, empty query and '全部' show the fetched list unchanged |
| Courses.RefilterIsStable | src/pages/Courses.tsx:46-53 | filtering the shown list again with the same inputs changes nothing |
| Courses.HiddenAfterFetchAsWritten | src/pages/Courses.tsx:35-41 | as written, a fetch without a user keeps the previous hidden ids |
| Courses.StaleHiddenAfterSignOut | src/pages/Courses.tsx:35-41 | after sign-out the previous user's hidden instructor still removes a course from the anonymous catalogue |
| Courses.HiddenAfterFetch | src/pages/Courses.tsx:35-41 | as intended, without a user nothing is hidden; with one the fetched ids replace the old ones when the query answered |
| Courses.AnonymousHidesNothing | src/pages/Courses.tsx:35-41 | with no signed-in user no course is removed for its instructor |
| Courses.CatalogPage.constructor | src/pages/Courses.tsx:11-15 | no courses, no hidden ids, loading, empty query, category '全部' |
| Courses.CatalogPage.Fetch | src/pages/Courses.tsx:23-44 | the courses are replaced when the store answered; as written, the hidden ids are replaced only when a user is signed in and the query answered, and otherwise keep their previous value (HiddenAfterFetchAsWritten); loading ends |
| Courses.CatalogPage.SetQuery | src/pages/Courses.tsx:14 | only the query changes |
| Courses.CatalogPage.SelectCategory | src/pages/Courses.tsx:15 | only the selected category changes |
| DateWindow.WindowConvex | src/components/Marquee.tsx:33-34 | the instants inside a window form an interval |
| DateWindow.WindowBounds | src/components/HeroSlider.tsx:21-22 | after the end and before the start an item is out; no bounds means always in; the end instant itself is in |
| Text.TrimEmpty | src/components/Marquee.tsx:32 | the trimmed text is empty iff the text is all white space, white space being what `trim` removes (the space separators, U+3000 included, the line terminators, tab, vertical tab, form feed and the byte order mark) |
| Marquee.IdeographicSpaceInactive | src/components/Marquee.tsx:32 | a text made only of ideographic spaces is blank, so the message is not active |
| Marquee.ActiveIff | src/components/Marquee.tsx:31-36 | a message is active iff it is enabled, its trimmed text is non-empty, its start is absent or not after now, and its end is absent or not before now |
| Marquee.ActiveMessages | src/components/Marquee.tsx:31-36 | the active messages are those of the stored list that pass, in stored order, each repeated message as many times as it is stored |
| Marquee.ActiveTexts | src/components/Marquee.tsx:39 | one text per active message, in order, none blank |
| Marquee.TodayStrFormat | src/components/Marquee.tsx:146-149 | the date is `YYYY-MM-DD`: ten characters, dashes at 4 and 7, the month and day zero-padded to two digits and reading back as month + 1 and day |
| Marquee.TodayStrInjective | src/components/Marquee.tsx:146-149 | different calendar dates give different strings |
| Marquee.GetDismissState | src/components/Marquee.tsx:151-159 | no record, an empty record, an unparsable record or a falsy parse gives null; otherwise the parsed value |
| Marquee.SavedDismissalSuppresses | src/components/Marquee.tsx:44-51 | a saved dismissal suppresses the banner iff its date is today and its version is the current `updated_at` |
| Marquee.NextDayShowsAgain | src/components/Marquee.tsx:44-54 | a dismissal saved on another calendar date does not suppress |
| Marquee.NoRecordNeverSuppresses | src/components/Marquee.tsx:44-52 | without a readable record nothing is suppressed |
| Marquee.Banner.constructor | src/components/Marquee.tsx:14-18 | hidden, no messages, index 0, no version, showing allowed, the stored record as given |
| Marquee.Banner.Fetch | src/components/Marquee.tsx:22-65 | active messages replace the list, with showing suppressed by a same-day same-version dismissal; a missing list gives the default message with showing allowed; a non-array or an all-inactive list changes nothing |
| Marquee.Banner.ShowTimerFires | src/components/Marquee.tsx:70-74 | the show timer, armed only with messages and showing allowed, makes the banner visible |
| Marquee.Banner.RotateTick | src/components/Marquee.tsx:77-83 | while visible with two or more messages the index moves to (i + 1) mod n and stays in range |
| Marquee.Banner.Dismiss | src/components/Marquee.tsx:85-93 | the banner is hidden and not shown again; when storage is writable it stores today and the current version, which then suppresses; no timer or rotation remains |
| Marquee.Banner.CurrentMessage | src/components/Marquee.tsx:97 | the message at the index, or the empty string out of range |
| Marquee.DismissThenReloadSameDay | src/components/Marquee.tsx:22-93 | dismissing, then loading the page again on the same day with the same version, keeps the banner hidden with no show timer |
| HeroSlider.LiveEvents | src/components/HeroSlider.tsx:18-25 | an event is kept iff it is inside its window now; the kept events are a subsequence in fetched order |
| HeroSlider.Next | src/components/HeroSlider.tsx:34 | (i + 1) mod n stays in [0, n) and wraps from n - 1 to 0 |
| HeroSlider.Prev | src/components/HeroSlider.tsx:83 | (i - 1 + n) mod n stays in [0, n) and wraps from 0 to n - 1 |
| HeroSlider.PrevAfterNext | src/components/HeroSlider.tsx:83-89 | previous after next returns the original index |
| HeroSlider.NextAfterPrev | src/components/HeroSlider.tsx:83-89 | next after previous returns the original index |
| HeroSlider.Advance | src/components/HeroSlider.tsx:33-35 | k timer ticks keep the index in range |
| HeroSlider.AdvanceWithoutWrap | src/components/HeroSlider.tsx:33-35 | ticks that stay short of the end add to the index |
| HeroSlider.AdvanceCompose | src/components/HeroSlider.tsx:33-35 | a + b ticks are a ticks then b ticks |
| HeroSlider.FullCycleReturns | src/components/HeroSlider.tsx:33-35 | n - i ticks reach 0 and n ticks return to the start |
| HeroSlider.Slider.constructor | src/components/HeroSlider.tsx:7-8 | no events, index 0 |
| HeroSlider.Slider.Fetch | src/components/HeroSlider.tsx:10-29 | the events become the live events of the answer, or stay empty without one |
| HeroSlider.Slider.Forward | src/components/HeroSlider.tsx:33-35 | the index becomes Next |
| HeroSlider.Slider.Back | src/components/HeroSlider.tsx:83 | the index becomes Prev |
| HeroSlider.Slider.Current | src/components/HeroSlider.tsx:54-70 | with events rendered, the shown event is one of them |
| Maps.ToMap | src/pages/AdminDashboard.tsx:58 | the reduced object has exactly the keys of the rows |
| Maps.LastWins | src/pages/AdminDashboard.tsx:58 | a key's value is that of its last row |
| Maps.BuildMap | src/pages/AdminDashboard.tsx:145-148 | the `forEach` that fills the status map computes ToMap |
| Json.Or | src/pages/AdminDashboard.tsx:60-68 | `a \|\| b`: a when truthy, else b |
| Json.WithDefaults | src/pages/AdminDashboard.tsx:61-69 | `{...defaults, ...stored}`: every default field is present, stored fields override, missing ones keep the default |
| AdminDashboard.SiteSettings | src/pages/AdminDashboard.tsx:59-70 | the settings have exactly the seven sections, each computed from the stored rows and its defaults |
| AdminDashboard.StoredFieldsOverrideDefaults | src/pages/AdminDashboard.tsx:61-69 | in an object section each default field is present; a stored field wins, a missing one keeps its default |
| AdminDashboard.MissingSectionsGetDefaults | src/pages/AdminDashboard.tsx:60-69 | a missing section gets its defaults; a missing Discord URL is the empty string |
| AdminDashboard.StoredListReplacesDefaultMessage | src/pages/AdminDashboard.tsx:66-69 | a stored message list replaces the default message |
| AdminDashboard.LoadSiteSettings | src/pages/AdminDashboard.tsx:57-70 | reducing the rows and adding the defaults gives SiteSettings of the last-wins map |
| AdminDashboard.NullIfEmpty | src/pages/AdminDashboard.tsx:92-93 | `s \|\| null`: null exactly for the empty string |
| AdminDashboard.EventPayloadOf | src/pages/AdminDashboard.tsx:88-94 | title and URLs copied; an empty start or end date becomes null, any other is kept |
| AdminDashboard.FilteredUsers | src/pages/AdminDashboard.tsx:238-242 | an empty query returns every user; otherwise a user is kept iff the lower-cased query occurs in the lower-cased name or e-mail (missing read as ''); order is kept |
| AdminDashboard.SearchIgnoresCase | src/pages/AdminDashboard.tsx:238-242 | two queries that are equal after lower-casing select the same members in the same order |
| AdminDashboard.UnverifiedCount | src/pages/AdminDashboard.tsx:245 | the count is at most the number of members, and 0 iff every member has a confirmation time |
| AdminDashboard.UnverifiedBounds | src/pages/AdminDashboard.tsx:245 | the null entries are a subset of the status entries, empty iff none is null |
| AdminDashboard.ConfirmingLowersCount | src/pages/AdminDashboard.tsx:245 | confirming one unverified member lowers the count by exactly one |
| AdminDashboard.LastStatusRowDecides | src/pages/AdminDashboard.tsx:145-148 | a member is counted unverified iff their last status row is null |
| AdminDashboard.SetMessageField | src/pages/AdminDashboard.tsx:582-585 | one field of message idx is set; every other message is unchanged |
| AdminDashboard.ToggleChangesOnlyOne | src/pages/AdminDashboard.tsx:582-585 | toggling `enabled` changes only that flag of message idx |
| AdminDashboard.WithMessages | src/pages/AdminDashboard.tsx:585 | the message list is replaced; the other sections and the banner's other fields are kept |
| AdminDashboard.WithSections | src/pages/AdminDashboard.tsx:758-768 | the section list is replaced; the other settings, and every other field of the terms object spread in, are kept |
| AdminDashboard.AddMessageAppends | src/pages/AdminDashboard.tsx:647-651 | adding appends the blank enabled message and keeps the earlier ones in place |
| AdminDashboard.AddSectionToMissingTerms | src/pages/AdminDashboard.tsx:768 | adding a section with no terms set gives a list of just the new section |
| AdminDashboard.AdminPage.constructor | src/pages/AdminDashboard.tsx:12-36 | empty settings, users and statuses; the event modal closed with an empty form |
| AdminDashboard.AdminPage.LoadSettings | src/pages/AdminDashboard.tsx:57-71 | the settings become SiteSettings of the rows when the store answered |
| AdminDashboard.AdminPage.LoadVerificationStatus | src/pages/AdminDashboard.tsx:141-151 | the status map becomes the last-wins map of the rows when the RPC answered |
| AdminDashboard.AdminPage.SaveEvent | src/pages/AdminDashboard.tsx:87-106 | an update of the edited event or an insert, with the normalised payload; the modal closes and the form resets |
| AdminDashboard.AdminPage.SetMessage | src/pages/AdminDashboard.tsx:582-586 | the settings get the list with one field of message idx set |
| AdminDashboard.AdminPage.DeleteMessage | src/pages/AdminDashboard.tsx:602-606 | the settings get the list without exactly message idx |
| AdminDashboard.AdminPage.AddMessage | src/pages/AdminDashboard.tsx:647-651 | the settings get `messages \|\| []` plus the blank message |
| AdminDashboard.AdminPage.DeleteSection | src/pages/AdminDashboard.tsx:758 | the settings get the sections without exactly section idx |
| AdminDashboard.AdminPage.SetSection | src/pages/AdminDashboard.tsx:760-763 | the settings get the sections with one field of section idx set |
| AdminDashboard.AdminPage.AddSection | src/pages/AdminDashboard.tsx:768 | the settings get `(terms \|\| {sections: []}).sections \|\| []` plus the new section |
| HiddenStats.NameOrUnknown | src/pages/AdminDashboard.tsx:232-233 | a missing or empty name reads as '未知', any other name as itself |
| HiddenStats.FindGroup | src/pages/AdminDashboard.tsx:232 | the position of the instructor's group, or -1 when it has none |
| HiddenStats.HiddenByInstructor | src/pages/AdminDashboard.tsx:230-235 | the reduce that creates a group on first sight and pushes each name computes GroupsOf |
| HiddenStats.GroupContents | src/pages/AdminDashboard.tsx:230-235 | an instructor has a group iff it has records; the group lists their members' names in record order, under the name from its first record |
| HiddenStats.GroupKeysDistinct | src/pages/AdminDashboard.tsx:232 | no instructor has two groups |
| HiddenStats.SizesSumToRecords | src/pages/AdminDashboard.tsx:230-235 | each record adds exactly one name, so the group sizes sum to the number of records |
| HiddenStats.SortBySize | src/pages/AdminDashboard.tsx:509 | the rows are ordered by group size, largest first, and are a permutation of the groups |
| HiddenStats.SortKeepsTies | src/pages/AdminDashboard.tsx:509 | groups of equal size keep their relative order: the sort is stable |
| HiddenStats.StatsRows | src/pages/AdminDashboard.tsx:230-235 | the table rows are the sorted groups: ordered by size and a permutation of the groups |
| CourseManagement.CourseScope | src/pages/CourseManagement.tsx:73-74 | the query is restricted iff the role is 'instructor', and then to the instructor's own id |
| CourseManagement.ScopedCourses | src/pages/CourseManagement.tsx:72-76 | the listed courses are those in scope, in store order |
| CourseManagement.InstructorSeesOwnCourses | src/pages/CourseManagement.tsx:72-76 | every course an instructor sees is their own |
| CourseManagement.OtherRolesSeeAll | src/pages/CourseManagement.tsx:72-76 | any other role sees the whole list |
| CourseManagement.PublishValue | src/pages/CourseManagement.tsx:150 | the toggle writes the negation of the current status |
| CourseManagement.PublishResult | src/pages/CourseManagement.tsx:154-158 | an error is reported as such; no error and no or empty rows is a permission failure; otherwise the update took effect |
| CourseManagement.ToggleTwiceRestores | src/pages/CourseManagement.tsx:150 | toggling twice restores the status |
| CourseManagement.AddQuestion | src/pages/CourseManagement.tsx:393 | the blank question is appended, starting from no questions when `quiz_data` is null |
| CourseManagement.DeleteQuestion | src/pages/CourseManagement.tsx:376 | exactly question qIdx is removed; the others keep their order |
| CourseManagement.SetAnswer | src/pages/CourseManagement.tsx:385 | only question qIdx's answer changes |
| CourseManagement.EditOption | src/pages/CourseManagement.tsx:386 | only option oIdx of question qIdx changes |
| CourseManagement.EditQuestionText | src/pages/CourseManagement.tsx:379 | only question qIdx's text changes |
| CourseManagement.MarkedOptionScores | src/pages/CourseManagement.tsx:385 | after marking option o as correct, a learner who chose o on that question is scored correct, the others as before |
| CourseManagement.TextEditsKeepScore | src/pages/CourseManagement.tsx:379-386 | edits that keep every answer key keep every learner's count |
| CourseManagement.CourseManager.constructor | src/pages/CourseManagement.tsx:22-25 | no units, a blank unit form, no quiz open |
| CourseManagement.CourseManager.AddUnit | src/pages/CourseManagement.tsx:115-123 | a failed insert alerts and changes nothing; a successful one resets the form with `order_index` = the unit count before the refetch + 1, then takes the refetched units |
| CourseManagement.CourseManager.OpenQuizEditor | src/pages/CourseManagement.tsx:351 | the editor opens on unit k |
| CourseManagement.CourseManager.SetEditedQuiz | src/pages/CourseManagement.tsx:376-393 | the edited unit gets the new questions; the unit list is untouched |
| CourseManagement.CourseManager.AddQuestionClicked | src/pages/CourseManagement.tsx:393 | the edited quiz becomes AddQuestion of it |
| CourseManagement.CourseManager.DeleteQuestionClicked | src/pages/CourseManagement.tsx:376 | the edited quiz becomes DeleteQuestion of it |
| CourseManagement.CourseManager.MarkCorrect | src/pages/CourseManagement.tsx:385 | as intended, on copied questions: the edited quiz becomes SetAnswer of it and the unit list is untouched |
| CourseManagement.CourseManager.OptionTyped | src/pages/CourseManagement.tsx:386 | as intended, on copied questions: the edited quiz becomes EditOption of it and the unit list is untouched |
| CourseManagement.CourseManager.QuestionTyped | src/pages/CourseManagement.tsx:379 | as intended, on copied questions: the edited quiz becomes EditQuestionText of it and the unit list is untouched |
| CourseManagement.CourseManager.Cancel | src/pages/CourseManagement.tsx:371-399 | the editor closes |
| CourseManagement.CancelDiscardsEdits | src/pages/CourseManagement.tsx:379-399 | as intended, with copied questions: marking an answer, editing an option and the question text, then cancelling, leaves the unit list's question as it was |
| CourseManagement.QuizEditorAsWritten.SetAnswer | src/pages/CourseManagement.tsx:385 | as written, the answer is assigned on the question object, so every unit of the list holding that object shows the new answer; the other fields of the question are kept |
| CourseManagement.QuizEditorAsWritten.SetOption | src/pages/CourseManagement.tsx:386 | as written, option oIdx is replaced on the shared question object, so every unit holding it shows the new option; the other options, text and answer are kept |
| CourseManagement.QuizEditorAsWritten.SetQuestionText | src/pages/CourseManagement.tsx:379 | as written, the text is assigned on the shared question object, so every unit holding it shows the new text; options and answer are kept |
| CourseManagement.CancelKeepsEdits | src/pages/CourseManagement.tsx:379-399 | as written, marking answer 2, editing option 1 and the question text, then cancelling, leaves the unit list showing all three edits |
| Dashboard.FavoriteCourses | src/pages/Dashboard.tsx:28 | the favourite courses are the present joins, position by position: same order, same repetitions, and nothing else |
| Dashboard.FavoriteInstructors | src/pages/Dashboard.tsx:35 | the favourite instructors are the present joins, position by position: same order, same repetitions, and nothing else |
| Dashboard.HiddenEntriesAsWritten | src/pages/Dashboard.tsx:42 | as written, one entry per row: `filter(Boolean)` after the spread removes nothing |
| Dashboard.NullJoinKeptAsWritten | src/pages/Dashboard.tsx:42 | as written, a row with a null join is listed as an entry without an instructor id |
| Dashboard.HiddenEntries | src/pages/Dashboard.tsx:42 | as intended, the entries are those of the rows with a present join, position by position in row order, each with an id |
| Dashboard.Unhide | src/pages/Dashboard.tsx:50 | every entry whose id is the clicked one is removed (with an absent id, every entry built from a null join); the rest are kept in order |
| Dashboard.UnhideIdempotent | src/pages/Dashboard.tsx:50 | unhiding twice is unhiding once |
| Dashboard.UnhideAbsent | src/pages/Dashboard.tsx:50 | unhiding an unlisted instructor changes nothing |
| Dashboard.RoleLabel | src/pages/Dashboard.tsx:112 | admin gives 管理員, instructor gives 講師, anything else (no profile included) gives 學員 |
| Dashboard.PanelsPartition | src/pages/Dashboard.tsx:280-290 | exactly one of the invite panel (line 130) and the management link is shown; the admin link comes only with the management link; the invite panel goes with the label 學員 |
| Dashboard.UnusedMatches | src/pages/Dashboard.tsx:59-64 | the rows the lookup can return: this code, not yet used |
| Dashboard.MarkUsed | src/pages/Dashboard.tsx:79 | every row with the code is marked used, the others unchanged |
| Dashboard.MarkedCodeIsSpent | src/pages/Dashboard.tsx:59-79 | once marked, the code matches no unused row, so it cannot be redeemed again |
| Dashboard.RedeemInviteAsWritten | src/pages/Dashboard.tsx:53-89 | as written: a failed or non-unique lookup changes nothing; then the role update, then the mark, each only after the previous call returned no error; the role granted is always 'instructor'; an update the access policy refuses changes nothing and the steps go on to success |
| Dashboard.RefusedRoleUpdateReportsSuccess | src/pages/Dashboard.tsx:71-83 | as written, when the access policy refuses the role update the upgrade reports success, the student stays a student and the code is spent |
| Dashboard.AdminCodeGrantsInstructor | src/pages/Dashboard.tsx:73 | as written, redeeming an admin code yields the role 'instructor' |
| Dashboard.RedeemInvite | src/pages/Dashboard.tsx:53-89 | as intended: the same sequence granting the code's role, an update that changed no row counting as a failure; success grants that role and spends the code; a failed mark leaves the role granted and the code unspent |
| Dashboard.AdminCodeGrantsAdmin | src/pages/Dashboard.tsx:53-89 | as intended, an admin code yields 'admin', and a second redemption of it is rejected |
| Dashboard.DashboardPage.constructor | src/pages/Dashboard.tsx:42 | not loading, no message, and the hidden list built from the fetched rows as written: one entry per row, null joins included |
| Dashboard.DashboardPage.UnhideClicked | src/pages/Dashboard.tsx:47-51 | without a user nothing changes; otherwise the list becomes Unhide of it with the clicked entry's id |
| Dashboard.DashboardPage.SubmitInvite | src/pages/Dashboard.tsx:53-89 | an outcome is always shown and loading always ends; the store and outcome are those of the steps as written (RedeemedAsWritten): a valid code with no failing call makes the profile an 'instructor' and spends the code |

## Left out

- Store calls are not modelled as I/O. Queries, inserts, updates, deletes and RPCs become
  parameters (what the store answered, whether a call failed). Server-side filtering
  (`is_active`, `is_published`) and ordering are assumed done by the store.
- CoursePlayer.Player.Load: requires the fetched units sorted by `order_index`, since the
  query asks the store for that order.
- `isSubscriptionActive` is an uninterpreted predicate parameter: it is imported by the
  course player, and its definition is not part of this model.
- Timers are transitions, not time: the 15-second show delay, and the 30-second and
  5-second intervals, are methods that fire once per call.
- `localStorage` is a field holding an optional record. `JSON.parse` and
  `JSON.stringify` are not modelled: a record carries its parse result.
- JavaScript `Date` parsing and locale formatting are not modelled. Instants and dates
  are integers. `getTodayStr` takes the year, month and day as numbers.
- `toLowerCase` is ASCII-only.
- Json.Items: `[...(x || [])]` on a truthy value that is not an array is read as no
  items. In JavaScript it throws for an object or a number and spreads a string's
  characters; the page only stores arrays there.
- Json.Assign: assigning a field on null or a primitive throws a TypeError in the
  page's strict-mode code; the model leaves the value unchanged. The page only stores
  objects in `sections`.
- Json.Spread: spreading a string or an array into an object is read as spreading
  nothing. The page only stores objects there.
- Object key order, and the reordering of integer-like keys in `Object.entries`, are
  not modelled. The hidden statistics are grouped in order of first appearance.
- The open-edit-event form (date reformatting into the inputs) is not modelled.
- The course player's view increment (`views + 1`) and `membership_steps` fetch are
  not modelled.
- Confirm dialogs, single and batch e-mail verification RPCs, and `window.location.reload`
  are not modelled.
- `Math.random` code generation is not modelled; codes are given as store rows.
- AdminDashboard.AdminPage.SetSection: the terms inputs assign the field on the section
  object that the previous state shares. The model builds a new section, so it does not
  capture that the previous state also changes; the page never reads that state again.
- Other admin setters are not modelled: articles, courses, about, contact, donation and
  Discord inputs. These are plain field assignments or store writes.
- HeroSlider.Slider.Fetch: requires the state on mount (no events, index 0), since the
  page fetches only once, on mount.
- Saving the quiz (`handleUpdateQuiz`), deleting units and courses, saving a course, and
  the instructor's profile form are not modelled. These are store writes followed by a
  refetch.
- MarkCorrect, OptionTyped, QuestionTyped (CourseManagement.CourseManager): these run on
  copied questions, as intended. The sharing the code as written has is captured by
  QuizEditorAsWritten's SetAnswer, SetOption and SetQuestionText, not by CourseManager.
- Dashboard.RedeemInvite: requires the profile to be in the store. The invite panel is
  rendered only for a loaded 'student' profile.
- The dashboard's success and error message texts are represented by an outcome value.

## Findings

| source | as written | input that shows it | evidently intended | confidence | as-written member | corrected member |
|---|---|---|---|---|---|---|
| src/pages/Dashboard.tsx:73 | redeeming an invitation code always sets the role to 'instructor' | a code created by the admin page's admin-code button (src/pages/AdminDashboard.tsx:178-180, role 'admin') | the profile receives the role the code carries; the corrected member also counts an update that changed no row as a failure, as the publish toggle does (src/pages/CourseManagement.tsx:154-158) | medium, not executed | Dashboard.RedeemInviteAsWritten, Dashboard.AdminCodeGrantsInstructor | Dashboard.RedeemInvite, Dashboard.AdminCodeGrantsAdmin |
| src/pages/CourseManagement.tsx:379-386 | the quiz editor copies the question list but not the question objects, so marking an answer (line 385), editing an option (line 386) or the question text (line 379) edits the unit list's own question, and Cancel does not undo it | open the editor on a unit whose question has answer 0, mark option 2, type into option 1 and the question, press Cancel: the unit list shows all three edits | Cancel discards unsaved edits | high, not executed | CourseManagement.CancelKeepsEdits | CourseManagement.CancelDiscardsEdits |
| src/pages/Courses.tsx:35-41 | the hidden-instructor ids are replaced only when a user is signed in, so they survive a sign-out on the catalogue page | a user who hid instructor i1 signs out on /courses; the refetch keeps ["i1"], and i1's course stays hidden from the anonymous visitor | without a user nothing is hidden | medium, not executed | Courses.HiddenAfterFetchAsWritten, Courses.StaleHiddenAfterSignOut | Courses.HiddenAfterFetch, Courses.AnonymousHidesNothing |
| src/pages/Dashboard.tsx:42 | `.filter(Boolean)` runs after the spread builds an object, and objects are truthy, so a null instructor join is kept as an entry without id or name | a hidden row whose instructor profile was deleted | null joins are dropped, as on lines 28 and 35 | high, not executed | Dashboard.HiddenEntriesAsWritten, Dashboard.NullJoinKeptAsWritten | Dashboard.HiddenEntries |
