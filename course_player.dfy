/**
 * The course player (src/pages/CoursePlayer.tsx): the media gate, the unit list and the
 * current unit, the quiz (answer selection, scoring on submit, reset on unit switch) and
 * the favourite toggle. Store reads and writes are parameters and returned requests.
 */
module CoursePlayer {
  import opened Wrappers
  import opened Records

  /** `profile?.subscription_end || null`. */
  function SubscriptionEnd(profile: Option<Profile>): Option<Date> {
    if profile.None? then None else profile.value.subscriptionEnd
  }

  /**
   * `isActive` (line 23): the media and the quiz are unlocked for a free course, for an
   * active subscription, or for an admin. `subscriptionActive` stands for the
   * `isSubscriptionActive` helper, whose definition is not part of this model.
   */
  function MediaUnlocked(course: Option<Course>, profile: Option<Profile>,
                         subscriptionActive: Option<Date> -> bool): (r: bool)
    ensures course.Some? && course.value.isFree ==> r
    ensures subscriptionActive(SubscriptionEnd(profile)) ==> r
    ensures profile.Some? && profile.value.role == Some("admin") ==> r
    ensures r ==> (course.Some? && course.value.isFree)
                  || subscriptionActive(SubscriptionEnd(profile))
                  || (profile.Some? && profile.value.role == Some("admin"))
  {
    (course.Some? && course.value.isFree)
    || subscriptionActive(SubscriptionEnd(profile))
    || (profile.Some? && profile.value.role == Some("admin"))
  }

  /** The answer vector: a JavaScript array with holes, so a position may hold no answer. */
  type Answers = seq<Option<int>>

  /** `quizAnswers[i]`: positions past the end, and holes, are unanswered. */
  function AnswerAt(answers: Answers, i: nat): Option<int> {
    if i < |answers| then answers[i] else None
  }

  /**
   * The answers after choosing option `o` for question `q` (lines 237-239): the array is
   * copied and `newAnswers[q] = o` assigned, which extends it with holes when `q` is past
   * its end. Only position `q` changes.
   */
  function WithAnswer(answers: Answers, q: nat, o: int): (r: Answers)
    ensures |r| == if q < |answers| then |answers| else q + 1
    ensures AnswerAt(r, q) == Some(o)
    ensures forall i: nat :: i != q ==> AnswerAt(r, i) == AnswerAt(answers, i)
  {
    if q < |answers| then answers[q := Some(o)]
    else answers + seq(q - |answers|, _ => None) + [Some(o)]
  }

  /** Question `i` counts when the answer at `i` equals its correct option. */
  predicate IsCorrect(quiz: seq<QuizQuestion>, answers: Answers, i: nat)
    requires i < |quiz|
  {
    AnswerAt(answers, i) == Some(quiz[i].answer)
  }

  /** The number of questions answered correctly; an unanswered question never counts. */
  function CountCorrect(quiz: seq<QuizQuestion>, answers: Answers): (n: nat)
    ensures n <= |quiz|
  {
    if quiz == [] then 0
    else CountCorrect(quiz[..|quiz| - 1], answers)
         + (if IsCorrect(quiz, answers, |quiz| - 1) then 1 else 0)
  }

  /** The `forEach` of `handleQuizSubmit` (lines 100-103), which increments `score` per match. */
  method ScoreQuiz(quiz: seq<QuizQuestion>, answers: Answers) returns (correct: nat)
    ensures correct == CountCorrect(quiz, answers)
  {
    correct := 0;
    var idx := 0;
    while idx < |quiz|
      invariant 0 <= idx <= |quiz|
      invariant correct == CountCorrect(quiz[..idx], answers)
    {
      assert quiz[..idx + 1][..idx] == quiz[..idx];
      if AnswerAt(answers, idx) == Some(quiz[idx].answer) {
        correct := correct + 1;
      }
      idx := idx + 1;
    }
    assert quiz[..idx] == quiz;
  }

  /** A reported score: `Math.round` of a number, or NaN when the quiz is empty (0 / 0). */
  datatype Score = Percent(value: int) | NotANumber

  /**
   * `Math.round(correct / total * 100)` on exact rationals: the nearest integer to
   * 100 * correct / total, halves rounded up.
   */
  function RoundedPercent(correct: nat, total: nat): (s: Score)
    ensures total == 0 <==> s == NotANumber
    ensures s.Percent? ==> 2 * total * s.value <= 200 * correct + total < 2 * total * (s.value + 1)
    ensures s.Percent? && correct <= total ==> 0 <= s.value <= 100
    ensures s.Percent? && correct == total ==> s.value == 100
    ensures s.Percent? && correct == 0 ==> s.value == 0
  {
    if total == 0 then NotANumber
    else
      var v := (200 * correct + total) / (2 * total);
      RoundingBounds(correct, total, v);
      Percent(v)
  }

  lemma RoundingBounds(correct: nat, total: nat, v: int)
    requires total > 0 && v == (200 * correct + total) / (2 * total)
    ensures 2 * total * v <= 200 * correct + total < 2 * total * (v + 1)
    ensures correct <= total ==> 0 <= v <= 100
    ensures correct == total ==> v == 100
    ensures correct == 0 ==> v == 0
  {
    var d := 2 * total;
    var n := 200 * correct + total;
    DivBracket(n, d);
    assert d * v <= n < d * (v + 1);
    if v < 0 {
      MulMono(d, v + 1, 0);
    }
    if correct <= total {
      if v > 100 {
        MulMono(d, 101, v);
      }
    }
    if correct == total {
      assert n == d * 100 + total;
      if v < 100 {
        MulMono(d, v + 1, 100);
      }
      if v > 100 {
        MulMono(d, 101, v);
      }
    }
    if correct == 0 {
      if v > 0 {
        MulMono(d, 1, v);
      }
    }
  }

  lemma DivBracket(n: int, d: int)
    requires d > 0
    ensures d * (n / d) <= n < d * (n / d + 1)
  {
    var q := n / d;
    assert n == d * q + n % d;
    assert d * (q + 1) == d * q + d;
  }

  lemma MulMono(d: int, a: int, b: int)
    requires d > 0 && a <= b
    ensures d * a <= d * b
  {
    assert d * b - d * a == d * (b - a);
  }

  /**
   * What submitting does (lines 96-107): nothing without quiz data; otherwise the score
   * of the answers. The truthiness test lets an empty quiz through, which gives NaN.
   */
  function SubmitResult(unit: Option<Unit>, answers: Answers): (r: Option<Score>)
    ensures r.None? <==> unit.None? || unit.value.quizData.None?
    ensures r.Some? ==> r.value == RoundedPercent(CountCorrect(unit.value.quizData.value, answers),
                                                  |unit.value.quizData.value|)
  {
    if unit.None? || unit.value.quizData.None? then None
    else
      var quiz := unit.value.quizData.value;
      Some(RoundedPercent(CountCorrect(quiz, answers), |quiz|))
  }

  /** The quiz form is rendered only when access is unlocked and the quiz has a question (line 201). */
  predicate QuizFormShown(unlocked: bool, unit: Option<Unit>) {
    unlocked && unit.Some? && unit.value.quizData.Some? && |unit.value.quizData.value| > 0
  }

  /** A submission from the rendered form never divides by zero: it gives a percentage in [0, 100]. */
  lemma FormSubmissionInRange(unlocked: bool, unit: Option<Unit>, answers: Answers)
    requires QuizFormShown(unlocked, unit)
    ensures SubmitResult(unit, answers).Some?
    ensures SubmitResult(unit, answers).value.Percent?
    ensures 0 <= SubmitResult(unit, answers).value.value <= 100
  {
  }

  /** All questions answered correctly scores 100. */
  lemma {:induction false} AllCorrectCountsAll(quiz: seq<QuizQuestion>, answers: Answers)
    requires forall i :: 0 <= i < |quiz| ==> IsCorrect(quiz, answers, i)
    ensures CountCorrect(quiz, answers) == |quiz|
  {
    if quiz != [] {
      var init := quiz[..|quiz| - 1];
      forall i | 0 <= i < |init| ensures IsCorrect(init, answers, i) {
        assert IsCorrect(quiz, answers, i);
      }
      AllCorrectCountsAll(init, answers);
    }
  }

  /** No answers at all (the state right after a unit switch) scores 0 correct. */
  lemma {:induction false} NoAnswersCountsNone(quiz: seq<QuizQuestion>)
    ensures CountCorrect(quiz, []) == 0
  {
    if quiz != [] {
      NoAnswersCountsNone(quiz[..|quiz| - 1]);
    }
  }

  /**
   * Answer vectors that differ at most at position `q` differ by at most one correct
   * answer; choosing an option therefore moves the count by at most one.
   */
  lemma {:induction false} CountDiffersAtOne(quiz: seq<QuizQuestion>, a: Answers, b: Answers, q: nat)
    requires forall i: nat :: i != q ==> AnswerAt(a, i) == AnswerAt(b, i)
    ensures -1 <= CountCorrect(quiz, a) - CountCorrect(quiz, b) <= 1
    ensures q >= |quiz| ==> CountCorrect(quiz, a) == CountCorrect(quiz, b)
  {
    if quiz != [] {
      var init := quiz[..|quiz| - 1];
      CountDiffersAtOne(init, a, b, q);
      if q < |init| {
        assert AnswerAt(a, |quiz| - 1) == AnswerAt(b, |quiz| - 1);
      }
    }
  }

  /** Choosing the correct option for question `q` never lowers the count. */
  lemma {:induction false} ChoosingCorrectNeverLowers(quiz: seq<QuizQuestion>, answers: Answers, q: nat)
    requires q < |quiz|
    ensures CountCorrect(quiz, WithAnswer(answers, q, quiz[q].answer)) >= CountCorrect(quiz, answers)
  {
    var b := WithAnswer(answers, q, quiz[q].answer);
    if quiz != [] {
      var init := quiz[..|quiz| - 1];
      if q < |init| {
        ChoosingCorrectNeverLowers(init, answers, q);
        assert AnswerAt(b, |quiz| - 1) == AnswerAt(answers, |quiz| - 1);
      } else {
        CountDiffersAtOne(init, b, answers, q);
      }
    }
  }

  /** The worked example: key [1, 2, 0] answered [1, 2, 1] scores 67. */
  lemma TwoOfThreeScores67()
    ensures var quiz := [QuizQuestion("a", [], 1), QuizQuestion("b", [], 2), QuizQuestion("c", [], 0)];
            RoundedPercent(CountCorrect(quiz, [Some(1), Some(2), Some(1)]), 3) == Percent(67)
  {
    var quiz := [QuizQuestion("a", [], 1), QuizQuestion("b", [], 2), QuizQuestion("c", [], 0)];
    var answers := [Some(1), Some(2), Some(1)];
    assert quiz[..2][..1] == quiz[..1];
    assert quiz[..3] == quiz;
    assert CountCorrect(quiz[..1], answers) == 1;
    assert CountCorrect(quiz[..2], answers) == 2;
    assert CountCorrect(quiz, answers) == 2;
  }

  /** Units arrive ordered by `order_index` ascending (the store sorts them). */
  predicate SortedByOrder(units: seq<Unit>) {
    forall i, j :: 0 <= i < j < |units| ==> units[i].orderIndex <= units[j].orderIndex
  }

  /** A request the player sends to the store for the favourite toggle. */
  datatype FavoriteRequest = NoRequest | DeleteFavorite(userId: Id, courseId: Id) | InsertFavorite(userId: Id, courseId: Id)

  /** The player's React state. */
  class Player {
    const routeId: Id
    var course: Option<Course>
    var units: seq<Unit>
    var currentUnit: Option<Unit>
    var answers: Answers
    var score: Option<Score>
    var submitted: bool
    var loading: bool
    var isFavorited: bool

    /** The state on mount, before the fetch completes. */
    constructor (routeId: Id)
      ensures this.routeId == routeId
      ensures course.None? && units == [] && currentUnit.None? && answers == []
      ensures score.None? && !submitted && loading && !isFavorited
    {
      this.routeId := routeId;
      course, units, currentUnit, answers := None, [], None, [];
      score, submitted, loading, isFavorited := None, false, true, false;
    }

    /**
     * `fetchCourseData` (lines 41-75): the course and the units ordered by `order_index`;
     * the current unit becomes the first unit (none for an empty list). `favoriteRow` is
     * whether the store found this user's favourite row.
     */
    method Load(courseData: Option<Course>, unitsData: Option<seq<Unit>>, user: Option<Id>, favoriteRow: bool)
      requires unitsData.Some? ==> SortedByOrder(unitsData.value)
      modifies this
      ensures course == if courseData.Some? then courseData else old(course)
      ensures units == if unitsData.Some? then unitsData.value else old(units)
      ensures unitsData.Some? && unitsData.value != [] ==> currentUnit == Some(unitsData.value[0])
      ensures unitsData.Some? && unitsData.value == [] ==> currentUnit.None?
      ensures unitsData.None? ==> currentUnit == old(currentUnit)
      ensures currentUnit.Some? && unitsData.Some? ==>
                forall u :: u in units ==> currentUnit.value.orderIndex <= u.orderIndex
      ensures !loading
      ensures isFavorited == if user.Some? then favoriteRow else old(isFavorited)
      ensures answers == old(answers) && score == old(score) && submitted == old(submitted)
    {
      if courseData.Some? {
        course := courseData;
      }
      if unitsData.Some? {
        units := unitsData.value;
        currentUnit := if unitsData.value == [] then None else Some(unitsData.value[0]);
      }
      loading := false;
      if user.Some? {
        isFavorited := favoriteRow;
      }
    }

    /** Choosing an option (lines 236-240); the radio inputs are disabled once submitted. */
    method SelectAnswer(q: nat, o: int)
      modifies this`answers
      ensures answers == if old(submitted) then old(answers) else WithAnswer(old(answers), q, o)
    {
      if !submitted {
        answers := WithAnswer(answers, q, o);
      }
    }

    /** `handleQuizSubmit` (lines 96-107). */
    method SubmitQuiz()
      modifies this`score, this`submitted
      ensures SubmitResult(currentUnit, answers).None? ==> score == old(score) && submitted == old(submitted)
      ensures SubmitResult(currentUnit, answers).Some? ==> score == SubmitResult(currentUnit, answers) && submitted
    {
      if currentUnit.None? || currentUnit.value.quizData.None? {
        return;
      }
      var quiz := currentUnit.value.quizData.value;
      var correct := ScoreQuiz(quiz, answers);
      submitted := true;
      score := Some(RoundedPercent(correct, |quiz|));
    }

    /** Clicking a unit in the playlist (lines 292-297): the quiz state starts over. */
    method SwitchUnit(u: Unit)
      modifies this`currentUnit, this`score, this`submitted, this`answers
      ensures currentUnit == Some(u) && score.None? && !submitted && answers == []
    {
      currentUnit := Some(u);
      score := None;
      submitted := false;
      answers := [];
    }

    /**
     * `toggleFavorite` (lines 80-94): without a user only an alert; a favourite is deleted
     * and the flag cleared; otherwise a row is inserted and the flag set only if the
     * insert reported no error (`insertFailed` is the store's answer).
     */
    method ToggleFavorite(user: Option<Id>, insertFailed: bool) returns (request: FavoriteRequest, alerted: bool)
      modifies this`isFavorited
      ensures user.None? ==> request == NoRequest && alerted && isFavorited == old(isFavorited)
      ensures user.Some? && old(isFavorited) ==>
                request == DeleteFavorite(user.value, routeId) && !alerted && !isFavorited
      ensures user.Some? && !old(isFavorited) ==>
                request == InsertFavorite(user.value, routeId) && alerted == insertFailed && isFavorited == !insertFailed
    {
      if user.None? {
        return NoRequest, true;
      }
      if isFavorited {
        request, alerted := DeleteFavorite(user.value, routeId), false;
        isFavorited := false;
      } else {
        request := InsertFavorite(user.value, routeId);
        alerted := insertFailed;
        if !insertFailed {
          isFavorited := true;
        }
      }
    }
  }
}
