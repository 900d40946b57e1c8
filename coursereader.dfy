/**
 * The course reader page: quiz scoring, the attempt log, and the
 * enrollment progress that a passed quiz writes, derived from the position
 * of the passed module in the course.
 */
module CourseReader {
  import opened Wrappers
  import opened Rounding
  import opened Seqs
  import opened Records

  /** A question counts only when its answer is exactly the correct one. */
  predicate IsCorrect(answers: map<string, string>, q: QuestionRow)
  {
    q.id in answers && answers[q.id] == q.correctAnswer
  }

  /** The number of questions the answers get right. */
  function CorrectCount(qs: seq<QuestionRow>, answers: map<string, string>): (r: nat)
    ensures r <= |qs|
    decreases |qs|
  {
    if qs == [] then 0
    else CorrectCount(qs[..|qs| - 1], answers) + (if IsCorrect(answers, qs[|qs| - 1]) then 1 else 0)
  }

  /** Every question is counted exactly when every question is answered correctly. */
  lemma {:induction false} AllCorrectIff(qs: seq<QuestionRow>, answers: map<string, string>)
    ensures CorrectCount(qs, answers) == |qs| <==> forall i :: 0 <= i < |qs| ==> IsCorrect(answers, qs[i])
    decreases |qs|
  {
    if qs != [] {
      var init := qs[..|qs| - 1];
      AllCorrectIff(init, answers);
      assert forall i :: 0 <= i < |init| ==> init[i] == qs[i];
    }
  }

  /** Nothing is counted exactly when no question is answered correctly. */
  lemma {:induction false} NoneCorrectIff(qs: seq<QuestionRow>, answers: map<string, string>)
    ensures CorrectCount(qs, answers) == 0 <==> forall i :: 0 <= i < |qs| ==> !IsCorrect(answers, qs[i])
    decreases |qs|
  {
    if qs != [] {
      var init := qs[..|qs| - 1];
      NoneCorrectIff(init, answers);
      assert forall i :: 0 <= i < |init| ==> init[i] == qs[i];
    }
  }

  /** `quiz.passing_score || 70`: a missing or zero passing score means 70. */
  function PassingScore(configured: Option<int>): int
  {
    if configured.Some? && configured.value != 0 then configured.value else 70
  }

  /** What the page shows after a submission. */
  datatype QuizResult = QuizResult(score: int, passed: bool, correct: nat, total: nat)

  /**
   * Scores a submission: the whole percentage nearest to correct / total,
   * halves rounding up, and a pass when it reaches the passing score.
   */
  function Grade(qs: seq<QuestionRow>, answers: map<string, string>, passingScore: Option<int>): (r: QuizResult)
    requires |qs| > 0
    ensures r.correct == CorrectCount(qs, answers) && r.total == |qs|
    ensures 2 * |qs| * r.score <= 200 * r.correct + |qs| < 2 * |qs| * r.score + 2 * |qs|
    ensures 0 <= r.score <= 100
    ensures r.passed <==> r.score >= PassingScore(passingScore)
    ensures r.correct == |qs| ==> r.score == 100
    ensures r.correct == 0 ==> r.score == 0
  {
    var c := CorrectCount(qs, answers);
    PercentRange(c, |qs|);
    PercentOfWhole(|qs|);
    PercentOfNothing(|qs|);
    var s := Percent(c, |qs|);
    QuizResult(s, s >= PassingScore(passingScore), c, |qs|)
  }

  /** A quiz answered entirely correctly passes unless its passing score exceeds 100. */
  lemma PerfectScorePasses(qs: seq<QuestionRow>, answers: map<string, string>, passingScore: Option<int>)
    requires |qs| > 0
    requires forall i :: 0 <= i < |qs| ==> IsCorrect(answers, qs[i])
    ensures Grade(qs, answers, passingScore).score == 100
    ensures Grade(qs, answers, passingScore).passed <==> PassingScore(passingScore) <= 100
  {
    AllCorrectIff(qs, answers);
  }

  /** The `forEach` that counts the correct answers. */
  method CountCorrect(qs: seq<QuestionRow>, answers: map<string, string>) returns (correct: nat)
    ensures correct == CorrectCount(qs, answers)
  {
    correct := 0;
    var i := 0;
    while i < |qs|
      invariant 0 <= i <= |qs|
      invariant correct == CorrectCount(qs[..i], answers)
    {
      assert qs[..i + 1][..i] == qs[..i];
      if qs[i].id in answers && answers[qs[i].id] == qs[i].correctAnswer {
        correct := correct + 1;
      }
      i := i + 1;
    }
    assert qs[..|qs|] == qs;
  }

  /** `modules.findIndex(m => m.id === id)`: the first match, or -1. */
  function IndexOf(mods: seq<ModuleRow>, id: Option<string>): (r: int)
    ensures -1 <= r < |mods|
    ensures r >= 0 ==> id == Some(mods[r].id) && forall j :: 0 <= j < r ==> id != Some(mods[j].id)
    ensures r == -1 ==> forall j :: 0 <= j < |mods| ==> id != Some(mods[j].id)
    decreases |mods|
  {
    if mods == [] then -1
    else if id == Some(mods[0].id) then 0
    else
      var k := IndexOf(mods[1..], id);
      assert forall j :: 1 <= j < |mods| ==> mods[j] == mods[1..][j - 1];
      if k == -1 then -1 else k + 1
  }

  /**
   * The enrollment after passing the quiz of module `index` (0-based, -1
   * when not found) of an `n`-module course: the progress is the share of
   * modules up to and including it, and the course is complete (with a
   * completion time) exactly when that share rounds to 100.
   */
  function RecordPass(e: Enrollment, index: int, n: int, now: string): (r: Enrollment)
    requires n > 0 && -1 <= index < n
    ensures r.progressPercent.Some? && 0 <= r.progressPercent.value <= 100
    ensures 2 * n * r.progressPercent.value <= 200 * (index + 1) + n < 2 * n * r.progressPercent.value + 2 * n
    ensures r.completed == Some(r.progressPercent.value == 100)
    ensures r.completedAt.Some? <==> r.completed == Some(true)
    ensures r.completedAt.Some? ==> r.completedAt == Some(now)
    ensures r.completed == Some(true) <==> 200 * (index + 1) >= 199 * n
    ensures index == n - 1 ==> r.progressPercent == Some(100)
    ensures r.enrolledAt == e.enrolledAt
  {
    PercentRange(index + 1, n);
    PercentReachesFull(index + 1, n);
    PercentOfWhole(n);
    var p := Percent(index + 1, n);
    e.(progressPercent := Some(p), completed := Some(p >= 100), completedAt := if p >= 100 then Some(now) else None)
  }

  /**
   * Progress is not monotonic: passing an earlier module after completing
   * the course writes a lower percentage and clears the completion.
   */
  lemma PassingEarlierModuleRegresses(e: Enrollment, i: int, n: int, t1: string, t2: string)
    requires 0 <= i < n && 200 * (i + 1) < 199 * n
    ensures RecordPass(e, n - 1, n, t1).completed == Some(true)
    ensures RecordPass(RecordPass(e, n - 1, n, t1), i, n, t2).completed == Some(false)
    ensures RecordPass(RecordPass(e, n - 1, n, t1), i, n, t2).completedAt == None
    ensures RecordPass(RecordPass(e, n - 1, n, t1), i, n, t2).progressPercent.value < 100
  {
  }

  /** A two-module course: finishing it and then passing module 1 again leaves it at 50%. */
  lemma RegressionExample(e: Enrollment)
    ensures RecordPass(RecordPass(e, 1, 2, "t1"), 0, 2, "t2").progressPercent == Some(50)
    ensures RecordPass(RecordPass(e, 1, 2, "t1"), 0, 2, "t2").completed == Some(false)
  {
    RoundDivUnique(100, 2, 50);
  }

  /**
   * The enrollment write of a pass: `update(...).eq("course_id").eq("user_id")`
   * changes that row when it exists and nothing else.
   */
  function UpdateEnrollment(es: map<EnrollmentKey, Enrollment>, key: EnrollmentKey, index: int, n: int, now: string): (r: map<EnrollmentKey, Enrollment>)
    requires n > 0 && -1 <= index < n
    ensures r.Keys == es.Keys
    ensures key in es ==> r[key] == RecordPass(es[key], index, n, now)
    ensures forall k :: k in es && k != key ==> r[k] == es[k]
  {
    if key in es then es[key := RecordPass(es[key], index, n, now)] else es
  }

  /** The header's progress bar: the active module's position as a percentage, 0 without modules. */
  function HeaderProgress(mods: seq<ModuleRow>, activeId: Option<string>): (r: int)
    ensures 0 <= r <= 100
    ensures |mods| == 0 || IndexOf(mods, activeId) == -1 ==> r == 0
    ensures |mods| > 0 && IndexOf(mods, activeId) == |mods| - 1 ==> r == 100
  {
    if |mods| > 0 then
      var k := IndexOf(mods, activeId);
      PercentRange(k + 1, |mods|);
      PercentOfNothing(|mods|);
      PercentOfWhole(|mods|);
      Percent(k + 1, |mods|)
    else 0
  }

  /** After a pass on the active module, the header shows exactly the progress written to the enrollment. */
  lemma HeaderMatchesRecordedPass(mods: seq<ModuleRow>, activeId: Option<string>, e: Enrollment, now: string)
    requires |mods| > 0
    ensures RecordPass(e, IndexOf(mods, activeId), |mods|, now).progressPercent == Some(HeaderProgress(mods, activeId))
  {
    var k := IndexOf(mods, activeId);
    var p := RecordPass(e, k, |mods|, now).progressPercent.value;
    RoundDivUnique(100 * (k + 1), |mods|, p);
  }

  /** The sidebar's check marks: module `i` is done when it comes before the active one. */
  function SidebarDone(mods: seq<ModuleRow>, activeId: Option<string>): (r: seq<bool>)
    ensures |r| == |mods|
    ensures forall i :: 0 <= i < |mods| && r[i] ==> activeId != Some(mods[i].id)
    ensures forall i, j :: 0 <= i < j < |mods| && r[j] ==> r[i]
    ensures IndexOf(mods, activeId) == -1 ==> forall i :: 0 <= i < |mods| ==> !r[i]
    ensures forall i :: 0 <= i < |mods| && activeId == Some(mods[i].id) ==> !r[i]
    ensures forall i :: 0 <= i < |mods| ==> (r[i] <==> i < IndexOf(mods, activeId))
  {
    var k := IndexOf(mods, activeId);
    seq(|mods|, i => i < k)
  }

  /** `maybeSingle()` on the module's quizzes: the quiz when there is exactly one, else nothing. */
  function QuizFor(quizzes: seq<QuizRow>, moduleId: string): (r: Option<QuizRow>)
    ensures r.Some? ==> r.value in quizzes && r.value.moduleId == moduleId
    ensures (forall q :: q in quizzes ==> q.moduleId != moduleId) ==> r.None?
    ensures r.Some? <==> |Filter(quizzes, (q: QuizRow) => q.moduleId == moduleId)| == 1
  {
    var ofModule := (q: QuizRow) => q.moduleId == moduleId;
    var found := Filter(quizzes, ofModule);
    assert forall q :: q in found <==> q in quizzes && q.moduleId == moduleId by {
      forall q {
        FilterMembership(quizzes, ofModule, q);
      }
    }
    if |found| == 1 then Some(found[0]) else None
  }

  /** A module with exactly one quiz row gets that quiz. */
  lemma QuizForUnique(quizzes: seq<QuizRow>, moduleId: string, k: int)
    requires 0 <= k < |quizzes| && quizzes[k].moduleId == moduleId
    requires forall j :: 0 <= j < |quizzes| && j != k ==> quizzes[j].moduleId != moduleId
    ensures QuizFor(quizzes, moduleId) == Some(quizzes[k])
  {
    FilterSingle(quizzes, (q: QuizRow) => q.moduleId == moduleId, k);
  }

  /** A module with two quiz rows gets none: `maybeSingle` fails on them. */
  lemma QuizForAmbiguous(quizzes: seq<QuizRow>, moduleId: string, i: int, j: int)
    requires 0 <= i < j < |quizzes|
    requires quizzes[i].moduleId == moduleId && quizzes[j].moduleId == moduleId
    ensures QuizFor(quizzes, moduleId).None?
  {
    FilterTwo(quizzes, (q: QuizRow) => q.moduleId == moduleId, i, j);
  }

  /** The ordering column of quiz questions. */
  function QuestionOrder(q: QuestionRow): int
  {
    q.sortOrder
  }

  /** The quiz's questions `.order("sort_order")`. */
  function QuestionsOf(questions: seq<QuestionRow>, quizId: string): (r: seq<QuestionRow>)
    ensures forall q :: q in r <==> q in questions && q.quizId == quizId
    ensures SortedBy(r, QuestionOrder)
    ensures multiset(r) == multiset(Filter(questions, (q: QuestionRow) => q.quizId == quizId))
  {
    var ofQuiz := (q: QuestionRow) => q.quizId == quizId;
    var found := Filter(questions, ofQuiz);
    SortBySorted(found, QuestionOrder);
    SortByPermutes(found, QuestionOrder);
    assert forall q :: q in SortBy(found, QuestionOrder) <==> q in questions && q.quizId == quizId by {
      forall q
        ensures q in SortBy(found, QuestionOrder) <==> q in questions && q.quizId == quizId
      {
        FilterMembership(questions, ofQuiz, q);
        SortByMembership(found, QuestionOrder, q);
      }
    }
    SortBy(found, QuestionOrder)
  }

  /** The ordering column of modules. */
  function ModuleOrder(m: ModuleRow): int
  {
    m.sortOrder
  }

  /** The reader page's state for one course. */
  class Reader {
    const courseId: string
    var modules: seq<ModuleRow>
    var activeModule: Option<ModuleRow>
    var quiz: Option<QuizRow>
    var quizQuestions: seq<QuestionRow>
    var answers: map<string, string>
    var quizResult: Option<QuizResult>
    var showHonorBoard: bool
    var sidebarOpen: bool

    /** The active module is one of the course's modules. */
    ghost predicate Valid()
      reads this
    {
      activeModule.Some? ==> activeModule.value in modules
    }

    /** The page once loaded: the course's modules by `sort_order`, the first one active. */
    constructor (db: Store, courseId: string)
      ensures Valid()
      ensures this.courseId == courseId
      ensures modules == SortBy(Filter(db.modules, (m: ModuleRow) => m.courseId == courseId), ModuleOrder)
      ensures activeModule == (if |modules| > 0 then Some(modules[0]) else None)
      ensures quiz.None? && quizQuestions == [] && answers == map[] && quizResult.None?
      ensures !showHonorBoard && !sidebarOpen
    {
      this.courseId := courseId;
      var mods := SortBy(Filter(db.modules, (m: ModuleRow) => m.courseId == courseId), ModuleOrder);
      modules := mods;
      activeModule := if |mods| > 0 then Some(mods[0]) else None;
      quiz, quizQuestions, answers, quizResult := None, [], map[], None;
      showHonorBoard, sidebarOpen := false, false;
    }

    /** `selectModule`: a new active module with the quiz state cleared. */
    method SelectModule(mod: ModuleRow)
      requires mod in modules
      modifies this
      ensures Valid()
      ensures activeModule == Some(mod) && modules == old(modules)
      ensures quiz.None? && quizQuestions == [] && quizResult.None? && answers == map[]
      ensures !showHonorBoard && !sidebarOpen
    {
      activeModule := Some(mod);
      quiz := None;
      quizQuestions := [];
      quizResult := None;
      answers := map[];
      showHonorBoard := false;
      sidebarOpen := false;
    }

    /**
     * `loadQuiz`: a found quiz comes with its ordered questions and a fresh
     * answer sheet; without one the quiz is cleared but the answers and the
     * result are left as they were.
     */
    method LoadQuiz(db: Store, moduleId: string)
      modifies this`quiz, this`quizQuestions, this`answers, this`quizResult, this`showHonorBoard
      ensures quiz == QuizFor(db.quizzes, moduleId)
      ensures quiz.Some? ==> quizQuestions == QuestionsOf(db.questions, quiz.value.id)
      ensures quiz.Some? ==> answers == map[] && quizResult.None? && !showHonorBoard
      ensures quiz.None? ==> quizQuestions == [] && answers == old(answers)
      ensures quiz.None? ==> quizResult == old(quizResult) && showHonorBoard == old(showHonorBoard)
    {
      var found := QuizFor(db.quizzes, moduleId);
      if found.Some? {
        quiz := found;
        quizQuestions := QuestionsOf(db.questions, found.value.id);
        answers := map[];
        quizResult := None;
        showHonorBoard := false;
      } else {
        quiz := None;
        quizQuestions := [];
      }
    }

    /** Clicking an option records it, unless the quiz has already been submitted. */
    method ChooseAnswer(questionId: string, option: string)
      modifies this`answers
      ensures quizResult.None? ==> answers == old(answers)[questionId := option]
      ensures quizResult.Some? ==> answers == old(answers)
    {
      if quizResult.None? {
        answers := answers[questionId := option];
      }
    }

    /** The retry button after a failed attempt. */
    method RetryQuiz()
      modifies this`quizResult, this`answers
      ensures quizResult.None? && answers == map[]
    {
      quizResult := None;
      answers := map[];
    }

    /**
     * `submitQuiz`: scores the answers, appends one attempt, shows the
     * result and, on a pass, writes the enrollment's progress.
     */
    method SubmitQuiz(db: Store, user: Option<string>, now: string)
      requires Valid()
      requires quiz.Some? ==> |quizQuestions| > 0
      modifies this`quizResult, this`showHonorBoard, db`attempts, db`enrollments
      ensures quiz.None? || user.None? ==>
        quizResult == old(quizResult) && showHonorBoard == old(showHonorBoard)
        && db.attempts == old(db.attempts) && db.enrollments == old(db.enrollments)
      ensures quiz.Some? && user.Some? ==>
        var r := Grade(quizQuestions, answers, quiz.value.passingScore);
        quizResult == Some(r)
        && db.attempts == old(db.attempts) + [Attempt(quiz.value.id, user.value, r.score, r.passed, answers)]
        && (r.passed ==> showHonorBoard)
        && (!r.passed ==> showHonorBoard == old(showHonorBoard) && db.enrollments == old(db.enrollments))
        && (r.passed && activeModule.Some? ==>
              db.enrollments == UpdateEnrollment(old(db.enrollments), EnrollmentKey(courseId, user.value),
                                                 IndexOf(modules, Some(activeModule.value.id)), |modules|, now))
        && (r.passed && activeModule.None? ==> db.enrollments == old(db.enrollments))
    {
      if quiz.None? || user.None? {
        return;
      }
      var correct := CountCorrect(quizQuestions, answers);
      var total := |quizQuestions|;
      var score := Percent(correct, total);
      var passed := score >= PassingScore(quiz.value.passingScore);
      db.attempts := db.attempts + [Attempt(quiz.value.id, user.value, score, passed, answers)];
      quizResult := Some(QuizResult(score, passed, correct, total));
      if passed {
        showHonorBoard := true;
        if activeModule.Some? {
          var index := IndexOf(modules, Some(activeModule.value.id));
          db.enrollments := UpdateEnrollment(db.enrollments, EnrollmentKey(courseId, user.value), index, |modules|, now);
        }
      }
    }
  }
}
