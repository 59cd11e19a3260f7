/**
 * The instructor's course management page (src/pages/CourseManagement.tsx): the course
 * list scoped by role, the publish toggle, adding a unit, and the quiz editor's edits
 * (add, delete, mark the correct option, edit an option or the question text).
 *
 * The quiz editor as written copies `quiz_data` shallowly: the question objects stay
 * shared with the page's unit list, so the in-place edits of lines 379, 385 and 386 survive
 * Cancel. `QuizEditorAsWritten` models those edits with heap objects, as written;
 * `CourseManager` is the page as intended, with the editor working on copied questions.
 */
module CourseManagement {
  import opened Wrappers
  import opened Records
  import opened Seqs
  import CoursePlayer

  /** Lines 72-75: an instructor's query is restricted to their own courses; other roles are not. */
  function CourseScope(profile: Profile): (scope: Option<Id>)
    ensures scope.Some? <==> profile.role == Some("instructor")
    ensures scope.Some? ==> scope.value == profile.id
  {
    if profile.role == Some("instructor") then Some(profile.id) else None
  }

  /** A course passes the scope when there is none or it belongs to the scoped instructor. */
  predicate InScope(c: Course, scope: Option<Id>) {
    scope.None? || c.instructorId == scope.value
  }

  /** The courses the scoped query returns from the store's courses. */
  function ScopedCourses(all: seq<Course>, scope: Option<Id>): (r: seq<Course>)
    ensures forall c :: c in r <==> c in all && (scope.None? || c.instructorId == scope.value)
    ensures IsSubsequence(r, all)
  {
    FilterIsSubsequence(all, (c: Course) => InScope(c, scope));
    Filter(all, (c: Course) => InScope(c, scope))
  }

  /** An instructor sees only their own courses. */
  lemma InstructorSeesOwnCourses(all: seq<Course>, profile: Profile, c: Course)
    requires profile.role == Some("instructor")
    requires c in ScopedCourses(all, CourseScope(profile))
    ensures c.instructorId == profile.id
  {
  }

  /** Any other role sees every course, in the store's order. */
  lemma {:induction false} OtherRolesSeeAll(all: seq<Course>, profile: Profile)
    requires profile.role != Some("instructor")
    ensures ScopedCourses(all, CourseScope(profile)) == all
  {
    FilterKeepsAll(all, (c: Course) => InScope(c, CourseScope(profile)));
  }

  /** What the publish toggle reports (lines 154-158). */
  datatype PublishOutcome = StoreError | PermissionFailure | Published(rows: seq<Course>)

  /**
   * `togglePublish`: the value written is the negation of the current flag; a store error
   * is reported as such, and an update that returned no rows as a permission failure.
   * The list is refetched in every case.
   */
  function PublishValue(current: bool): (v: bool)
    ensures v != current
  {
    !current
  }

  function PublishResult(errored: bool, data: Option<seq<Course>>): (o: PublishOutcome)
    ensures errored <==> o == StoreError
    ensures !errored && (data.None? || data.value == []) <==> o == PermissionFailure
    ensures o.Published? ==> data == Some(o.rows) && o.rows != []
  {
    if errored then StoreError
    else if data.None? || data.value == [] then PermissionFailure
    else Published(data.value)
  }

  /** Two toggles restore the flag. */
  lemma ToggleTwiceRestores(current: bool)
    ensures PublishValue(PublishValue(current)) == current
  {
  }

  /** The question the add button appends (line 393). */
  const BlankQuestion: QuizQuestion := QuizQuestion("", ["", "", "", ""], 0)

  /** Line 393: append a blank question, starting from no questions when `quiz_data` is null. */
  function AddQuestion(quizData: Option<seq<QuizQuestion>>): (r: seq<QuizQuestion>)
    ensures |r| == |quizData.GetOr([])| + 1
    ensures r[..|r| - 1] == quizData.GetOr([]) && r[|r| - 1] == BlankQuestion
  {
    quizData.GetOr([]) + [BlankQuestion]
  }

  /** Line 376: delete question `qIdx`; the rest keep their order. */
  function DeleteQuestion(qs: seq<QuizQuestion>, qIdx: nat): (r: seq<QuizQuestion>)
    requires qIdx < |qs|
    ensures |r| == |qs| - 1
    ensures r[..qIdx] == qs[..qIdx] && r[qIdx..] == qs[qIdx + 1..]
  {
    RemoveAt(qs, qIdx)
  }

  /** Line 385: mark option `oIdx` of question `qIdx` as the correct one. */
  function SetAnswer(qs: seq<QuizQuestion>, qIdx: nat, oIdx: int): (r: seq<QuizQuestion>)
    requires qIdx < |qs|
    ensures |r| == |qs|
    ensures r[qIdx].answer == oIdx
    ensures r[qIdx].question == qs[qIdx].question && r[qIdx].options == qs[qIdx].options
    ensures forall j :: 0 <= j < |qs| && j != qIdx ==> r[j] == qs[j]
  {
    qs[qIdx := qs[qIdx].(answer := oIdx)]
  }

  /** Line 386: replace option `oIdx` of question `qIdx`. */
  function EditOption(qs: seq<QuizQuestion>, qIdx: nat, oIdx: nat, text: string): (r: seq<QuizQuestion>)
    requires qIdx < |qs| && oIdx < |qs[qIdx].options|
    ensures |r| == |qs|
    ensures |r[qIdx].options| == |qs[qIdx].options| && r[qIdx].options[oIdx] == text
    ensures forall o :: 0 <= o < |qs[qIdx].options| && o != oIdx ==> r[qIdx].options[o] == qs[qIdx].options[o]
    ensures r[qIdx].question == qs[qIdx].question && r[qIdx].answer == qs[qIdx].answer
    ensures forall j :: 0 <= j < |qs| && j != qIdx ==> r[j] == qs[j]
  {
    qs[qIdx := qs[qIdx].(options := qs[qIdx].options[oIdx := text])]
  }

  /** Line 379: replace the text of question `qIdx`. */
  function EditQuestionText(qs: seq<QuizQuestion>, qIdx: nat, text: string): (r: seq<QuizQuestion>)
    requires qIdx < |qs|
    ensures |r| == |qs|
    ensures r[qIdx].question == text
    ensures r[qIdx].options == qs[qIdx].options && r[qIdx].answer == qs[qIdx].answer
    ensures forall j :: 0 <= j < |qs| && j != qIdx ==> r[j] == qs[j]
  {
    qs[qIdx := qs[qIdx].(question := text)]
  }

  /**
   * The editor and the player agree: once option `oIdx` is marked correct for question
   * `qIdx`, a learner who chooses `oIdx` there gets that question right, and the other
   * questions score as before.
   */
  lemma MarkedOptionScores(qs: seq<QuizQuestion>, qIdx: nat, oIdx: int, answers: CoursePlayer.Answers)
    requires qIdx < |qs| && CoursePlayer.AnswerAt(answers, qIdx) == Some(oIdx)
    ensures CoursePlayer.IsCorrect(SetAnswer(qs, qIdx, oIdx), answers, qIdx)
    ensures forall j :: 0 <= j < |qs| && j != qIdx ==>
              CoursePlayer.IsCorrect(SetAnswer(qs, qIdx, oIdx), answers, j) == CoursePlayer.IsCorrect(qs, answers, j)
  {
  }

  /** Editing text never changes what counts as correct: the count of correct answers is unchanged. */
  lemma {:induction false} TextEditsKeepScore(qs: seq<QuizQuestion>, r: seq<QuizQuestion>, answers: CoursePlayer.Answers)
    requires |r| == |qs|
    requires forall j :: 0 <= j < |qs| ==> r[j].answer == qs[j].answer
    ensures CoursePlayer.CountCorrect(r, answers) == CoursePlayer.CountCorrect(qs, answers)
  {
    if qs != [] {
      TextEditsKeepScore(qs[..|qs| - 1], r[..|r| - 1], answers);
    }
  }

  /** The add-unit form. */
  datatype UnitForm = UnitForm(title: string, youtubeId: string, orderIndex: int, quizData: seq<QuizQuestion>)

  /**
   * The page's unit and quiz-editor state as intended: the editor works on copied
   * questions, so its edits reach the unit list only through a save.
   */
  class CourseManager {
    var units: seq<Unit>
    var newUnit: UnitForm
    var editingQuiz: Option<Unit>
    var showQuizEditor: bool

    constructor ()
      ensures units == [] && newUnit == UnitForm("", "", 0, []) && editingQuiz.None? && !showQuizEditor
    {
      units, newUnit, editingQuiz, showQuizEditor := [], UnitForm("", "", 0, []), None, false;
    }

    /**
     * `handleAddUnit` (lines 115-123): after a successful insert the form resets with the
     * order index one past the unit count before the refetch; the refetched list, when the
     * store returns one, replaces the units. A failed insert changes nothing.
     */
    method AddUnit(insertFailed: bool, refetched: Option<seq<Unit>>) returns (alerted: bool)
      modifies this`newUnit, this`units
      ensures alerted == insertFailed
      ensures insertFailed ==> newUnit == old(newUnit) && units == old(units)
      ensures !insertFailed ==> newUnit == UnitForm("", "", |old(units)| + 1, [])
                                && units == refetched.GetOr(old(units))
    {
      if insertFailed {
        return true;
      }
      newUnit := UnitForm("", "", |units| + 1, []);
      if refetched.Some? {
        units := refetched.value;
      }
      return false;
    }

    /** The edit-quiz button of unit `k` (line 351). */
    method OpenQuizEditor(k: nat)
      requires k < |units|
      modifies this`editingQuiz, this`showQuizEditor
      ensures editingQuiz == Some(units[k]) && showQuizEditor
    {
      editingQuiz := Some(units[k]);
      showQuizEditor := true;
    }

    /** The quiz the editor shows. */
    function EditedQuiz(): Option<seq<QuizQuestion>>
      reads this
    {
      if editingQuiz.Some? then editingQuiz.value.quizData else None
    }

    /** Replaces the edited unit's questions; the unit list is left alone until a save. */
    method SetEditedQuiz(qs: seq<QuizQuestion>)
      requires editingQuiz.Some?
      modifies this`editingQuiz
      ensures editingQuiz == Some(old(editingQuiz).value.(quizData := Some(qs)))
    {
      editingQuiz := Some(editingQuiz.value.(quizData := Some(qs)));
    }

    method AddQuestionClicked()
      requires editingQuiz.Some?
      modifies this`editingQuiz
      ensures EditedQuiz() == Some(AddQuestion(old(EditedQuiz())))
      ensures units == old(units)
    {
      SetEditedQuiz(AddQuestion(editingQuiz.value.quizData));
    }

    method DeleteQuestionClicked(qIdx: nat)
      requires EditedQuiz().Some? && qIdx < |EditedQuiz().value|
      modifies this`editingQuiz
      ensures EditedQuiz() == Some(DeleteQuestion(old(EditedQuiz()).value, qIdx))
      ensures units == old(units)
    {
      SetEditedQuiz(DeleteQuestion(editingQuiz.value.quizData.value, qIdx));
    }

    method MarkCorrect(qIdx: nat, oIdx: int)
      requires EditedQuiz().Some? && qIdx < |EditedQuiz().value|
      modifies this`editingQuiz
      ensures EditedQuiz() == Some(SetAnswer(old(EditedQuiz()).value, qIdx, oIdx))
      ensures units == old(units)
    {
      SetEditedQuiz(SetAnswer(editingQuiz.value.quizData.value, qIdx, oIdx));
    }

    method OptionTyped(qIdx: nat, oIdx: nat, text: string)
      requires EditedQuiz().Some? && qIdx < |EditedQuiz().value| && oIdx < |EditedQuiz().value[qIdx].options|
      modifies this`editingQuiz
      ensures EditedQuiz() == Some(EditOption(old(EditedQuiz()).value, qIdx, oIdx, text))
      ensures units == old(units)
    {
      SetEditedQuiz(EditOption(editingQuiz.value.quizData.value, qIdx, oIdx, text));
    }

    method QuestionTyped(qIdx: nat, text: string)
      requires EditedQuiz().Some? && qIdx < |EditedQuiz().value|
      modifies this`editingQuiz
      ensures EditedQuiz() == Some(EditQuestionText(old(EditedQuiz()).value, qIdx, text))
      ensures units == old(units)
    {
      SetEditedQuiz(EditQuestionText(editingQuiz.value.quizData.value, qIdx, text));
    }

    /** Cancel or the close button (lines 371 and 399): the editor closes and nothing else changes. */
    method Cancel()
      modifies this`showQuizEditor
      ensures !showQuizEditor
    {
      showQuizEditor := false;
    }
  }

  /**
   * On the copying editor, Cancel discards every edit: after marking an answer, typing
   * into an option and into the question, the unit list still shows the old question.
   */
  method CancelDiscardsEdits() returns (answer: int, option: string, question: string)
    ensures answer == 0 && option == "b" && question == "Q"
  {
    var page := new CourseManager();
    var unit := Unit("u1", "c1", "Unit", "yt", 1, Some([QuizQuestion("Q", ["a", "b", "c", "d"], 0)]));
    var _ := page.AddUnit(false, Some([unit]));
    page.OpenQuizEditor(0);
    page.MarkCorrect(0, 2);
    page.OptionTyped(0, 1, "b2");
    page.QuestionTyped(0, "Q2");
    page.Cancel();
    var shown := page.units[0].quizData.value[0];
    answer, option, question := shown.answer, shown.options[1], shown.question;
  }

  /** A question object as the page holds it: its fields are assigned in place. */
  class QuestionObj {
    var question: string
    var options: seq<string>
    var answer: int

    constructor (question: string, options: seq<string>, answer: int)
      ensures this.question == question && this.options == options && this.answer == answer
    {
      this.question, this.options, this.answer := question, options, answer;
    }
  }

  /** A unit object; the editor replaces it (`{...unit, quiz_data: d}`) rather than changing it. */
  class UnitObj {
    const id: Id
    const quizData: Option<seq<QuestionObj>>

    constructor (id: Id, quizData: Option<seq<QuestionObj>>)
      ensures this.id == id && this.quizData == quizData
    {
      this.id, this.quizData := id, quizData;
    }
  }

  /** The quiz editor as written: `[...quiz_data]` copies the list but shares the question objects. */
  class QuizEditorAsWritten {
    var units: seq<UnitObj>
    var editing: UnitObj?
    var showQuizEditor: bool

    constructor (units: seq<UnitObj>)
      ensures this.units == units && editing == null && !showQuizEditor
    {
      this.units, editing, showQuizEditor := units, null, false;
    }

    /** Line 351: the editor receives the list's own unit object. */
    method Open(k: nat)
      requires k < |units|
      modifies this`editing, this`showQuizEditor
      ensures editing == units[k] && showQuizEditor
    {
      editing := units[k];
      showQuizEditor := true;
    }

    /**
     * Line 385: `d[qIdx].answer = oIdx` assigns on the question object, which every unit
     * of the list holding it shares; the editor then gets a new unit object over the copied list.
     */
    method SetAnswer(qIdx: nat, oIdx: int)
      requires editing != null && editing.quizData.Some? && qIdx < |editing.quizData.value|
      modifies this`editing, editing.quizData.value[qIdx]
      ensures var q := old(editing).quizData.value[qIdx];
              q.answer == oIdx && q.question == old(q.question) && q.options == old(q.options)
      ensures forall k :: 0 <= k < |units| && units[k].quizData.Some? && qIdx < |units[k].quizData.value|
                && units[k].quizData.value[qIdx] == old(editing).quizData.value[qIdx]
                ==> units[k].quizData.value[qIdx].answer == oIdx
      ensures editing != null && fresh(editing) && editing.quizData == old(editing).quizData
      ensures units == old(units) && showQuizEditor == old(showQuizEditor)
    {
      var d := editing.quizData.value;
      d[qIdx].answer := oIdx;
      editing := new UnitObj(editing.id, Some(d));
    }

    /** Line 386: `d[qIdx].options[oIdx] = text` writes into the shared question's options. */
    method SetOption(qIdx: nat, oIdx: nat, text: string)
      requires editing != null && editing.quizData.Some? && qIdx < |editing.quizData.value|
      requires oIdx < |editing.quizData.value[qIdx].options|
      modifies this`editing, editing.quizData.value[qIdx]
      ensures var q := old(editing).quizData.value[qIdx];
              q.options == old(q.options)[oIdx := text] && q.question == old(q.question) && q.answer == old(q.answer)
      ensures forall k :: 0 <= k < |units| && units[k].quizData.Some? && qIdx < |units[k].quizData.value|
                && units[k].quizData.value[qIdx] == old(editing).quizData.value[qIdx]
                ==> units[k].quizData.value[qIdx].options[oIdx] == text
      ensures editing != null && fresh(editing) && editing.quizData == old(editing).quizData
      ensures units == old(units) && showQuizEditor == old(showQuizEditor)
    {
      var d := editing.quizData.value;
      d[qIdx].options := d[qIdx].options[oIdx := text];
      editing := new UnitObj(editing.id, Some(d));
    }

    /** Line 379: `d[qIdx].question = text` assigns on the shared question object. */
    method SetQuestionText(qIdx: nat, text: string)
      requires editing != null && editing.quizData.Some? && qIdx < |editing.quizData.value|
      modifies this`editing, editing.quizData.value[qIdx]
      ensures var q := old(editing).quizData.value[qIdx];
              q.question == text && q.options == old(q.options) && q.answer == old(q.answer)
      ensures forall k :: 0 <= k < |units| && units[k].quizData.Some? && qIdx < |units[k].quizData.value|
                && units[k].quizData.value[qIdx] == old(editing).quizData.value[qIdx]
                ==> units[k].quizData.value[qIdx].question == text
      ensures editing != null && fresh(editing) && editing.quizData == old(editing).quizData
      ensures units == old(units) && showQuizEditor == old(showQuizEditor)
    {
      var d := editing.quizData.value;
      d[qIdx].question := text;
      editing := new UnitObj(editing.id, Some(d));
    }

    /** Lines 371 and 399: Cancel only closes the editor. */
    method Cancel()
      modifies this`showQuizEditor
      ensures !showQuizEditor
    {
      showQuizEditor := false;
    }
  }

  /**
   * Marking option 2, typing into option 1 and into the question, then pressing Cancel,
   * leaves the unit list showing all three edits although nothing was saved; reopening
   * the editor, or saving it later, carries them on.
   */
  method CancelKeepsEdits() returns (answer: int, option: string, question: string)
    ensures answer == 2 && option == "b2" && question == "Q2"
  {
    var q := new QuestionObj("Q", ["a", "b", "c", "d"], 0);
    var u := new UnitObj("u1", Some([q]));
    var page := new QuizEditorAsWritten([u]);
    page.Open(0);
    page.SetAnswer(0, 2);
    page.SetOption(0, 1, "b2");
    page.SetQuestionText(0, "Q2");
    page.Cancel();
    var shown := page.units[0].quizData.value[0];
    answer, option, question := shown.answer, shown.options[1], shown.question;
  }
}
