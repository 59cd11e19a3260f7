/**
 * The row shapes the pages read from the store (src/lib/supabase.ts), with the columns
 * the pages use. Timestamps are integers; an absent or empty date column is `None`.
 */
module Records {
  import opened Wrappers

  type Id = string

  /** An instant or a calendar date, compared as an integer. */
  type Date = int

  /**
   * A profile row. `role` is kept as the stored text: the guard in ProtectedRoute ranks
   * any string, including ones outside 'student' | 'instructor' | 'admin'.
   * `subscriptionEnd` is read by the course player although the interface does not declare it.
   */
  datatype Profile = Profile(
    id: Id,
    fullName: Option<string>,
    role: Option<string>,
    email: Option<string>,
    subscriptionEnd: Option<Date>)

  /**
   * A course row. `isFree` is the `is_free` column the course player reads; `description`
   * may be missing (`course.description?.toLowerCase()`); an empty `category` is falsy.
   */
  datatype Course = Course(
    id: Id,
    title: string,
    description: Option<string>,
    category: string,
    instructorId: Id,
    views: int,
    isPublished: bool,
    isFree: bool)

  /** One quiz question: `answer` is the index of the correct option. */
  datatype QuizQuestion = QuizQuestion(question: string, options: seq<string>, answer: int)

  /** A course unit; `quizData` is `None` when the column is null. */
  datatype Unit = Unit(
    id: Id,
    courseId: Id,
    title: string,
    youtubeId: string,
    orderIndex: int,
    quizData: Option<seq<QuizQuestion>>)

  /** A hero-slider event with its optional display window. */
  datatype Event = Event(
    id: Id,
    title: string,
    imageUrl: string,
    linkUrl: string,
    isActive: bool,
    startDate: Option<Date>,
    endDate: Option<Date>)

  /**
   * A hidden-instructor row joined with the two profiles' names; a join that found no
   * profile, or a profile without a name, gives `None`.
   */
  datatype HiddenInstructor = HiddenInstructor(
    id: Id,
    userId: Id,
    instructorId: Id,
    instructorName: Option<string>,
    userName: Option<string>)
}
