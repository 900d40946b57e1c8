/**
 * The admin course generator: asking for ideas or a generated course, and
 * publishing a generated course tree as course, module, quiz and question
 * rows, with the field defaults and the skip-on-error rules of the page.
 *
 * The store's answers to the inserts of one publication are a list
 * `replies`: the k-th insert the page sends (counting from 0, the course
 * first) gets `At(replies, k)`, which carries the new row's id or an error.
 */
module CourseGenerator {
  import opened Wrappers
  import opened Strings
  import opened Seqs
  import opened Records
  import opened GenerateCourse

  /** `n || d` on a JSON number: a missing or zero value becomes `d`. */
  function NumberOr(n: Option<int>, d: int): (r: int)
    ensures d != 0 ==> r != 0
    ensures n.Some? && n.value != 0 ==> r == n.value
    ensures !(n.Some? && n.value != 0) ==> r == d
  {
    if n.Some? && n.value != 0 then n.value else d
  }

  /** The course row: duration 120 by default, format "video", `sort_order` the clock; the target plan is not written. */
  function CourseRowOf(id: string, c: GenCourseInfo, isPublished: bool, now: int): (r: CourseRow)
    ensures r.id == id && r.title == c.title && r.description == Some(c.description) && r.sector == Some(c.sector)
    ensures r.level == c.level
    ensures r.durationMinutes == NumberOr(c.durationMinutes, 120) && r.format == "video"
    ensures r.isPublished == isPublished && r.sortOrder == Some(now)
  {
    CourseRow(id, c.title, Some(c.description), Some(c.sector), c.level, NumberOr(c.durationMinutes, 120), "video", isPublished, Some(now))
  }

  /** A module row: duration 20 and `sort_order` 1 by default, no video or PDF. */
  function ModuleRowOf(id: string, courseId: string, m: GenModule): (r: ModuleRow)
    ensures r.id == id && r.courseId == courseId && r.title == m.title && r.content == m.content
    ensures r.durationMinutes == NumberOr(m.durationMinutes, 20) && r.sortOrder == NumberOr(m.sortOrder, 1)
    ensures r.videoUrl.None? && r.pdfUrl.None?
  {
    ModuleRow(id, courseId, m.title, m.content, NumberOr(m.durationMinutes, 20), NumberOr(m.sortOrder, 1), None, None)
  }

  /** A quiz row: passing score 70 by default. */
  function QuizRowOf(id: string, moduleId: string, q: GenQuiz): (r: QuizRow)
    ensures r.id == id && r.moduleId == moduleId && r.title == q.title
    ensures r.passingScore == Some(NumberOr(q.passingScore, 70))
  {
    QuizRow(id, moduleId, q.title, Some(NumberOr(q.passingScore, 70)))
  }

  /** A question row: type "qcm" and `sort_order` 1 by default. */
  function QuestionRowOf(id: string, quizId: string, q: GenQuestion): (r: QuestionRow)
    ensures r.id == id && r.quizId == quizId && r.question == q.question
    ensures r.options == q.options && r.correctAnswer == q.correctAnswer
    ensures r.questionType == TextOr(q.questionType, "qcm") && r.sortOrder == NumberOr(q.sortOrder, 1)
  {
    QuestionRow(id, quizId, q.question, TextOr(q.questionType, "qcm"), q.options, q.correctAnswer, NumberOr(q.sortOrder, 1))
  }

  /** The store's answer to the `k`-th insert; past the end of the list the store answers with an error. */
  function At(replies: seq<InsertReply>, k: nat): (r: InsertReply)
    ensures k < |replies| ==> r == replies[k]
  {
    if k < |replies| then replies[k] else Rejected("no answer")
  }

  /** `mod.quiz && mod.quiz.questions?.length`. */
  predicate HasQuestions(m: GenModule)
  {
    m.quiz.Some? && m.quiz.value.questions.Some? && |m.quiz.value.questions.value| > 0
  }

  /** The rows one publication adds, and how many inserts it sent. */
  datatype Batch = Batch(modules: seq<ModuleRow>, quizzes: seq<QuizRow>, questions: seq<QuestionRow>, used: nat)

  /**
   * The question rows for the first `n` questions of quiz `quizId`, their
   * inserts answered from `At(replies, next)` on; a failed insert adds no row.
   */
  function QuestionRows(quizId: string, qs: seq<GenQuestion>, n: nat, replies: seq<InsertReply>, next: nat): (r: seq<QuestionRow>)
    requires n <= |qs|
    ensures |r| <= n
  {
    if n == 0 then []
    else
      var init := QuestionRows(quizId, qs, n - 1, replies, next);
      match At(replies, next + n - 1)
      case Inserted(id) => init + [QuestionRowOf(id, quizId, qs[n - 1])]
      case Rejected(_) => init
  }

  /**
   * The rows for one generated module. A failed module insert adds nothing
   * (its quiz is skipped); a failed quiz insert adds no question rows.
   */
  function ModuleBatch(courseId: string, m: GenModule, replies: seq<InsertReply>, next: nat): (r: Batch)
    ensures r.used >= 1 && |r.modules| <= 1 && |r.quizzes| <= |r.modules|
    ensures At(replies, next).Rejected? ==> r == Batch([], [], [], 1)
    ensures At(replies, next).Inserted? ==> r.modules == [ModuleRowOf(At(replies, next).id, courseId, m)]
    ensures !HasQuestions(m) ==> r.quizzes == [] && r.questions == []
  {
    match At(replies, next)
    case Rejected(_) => Batch([], [], [], 1)
    case Inserted(moduleId) =>
      var row := ModuleRowOf(moduleId, courseId, m);
      if !HasQuestions(m) then Batch([row], [], [], 1)
      else
        var quiz := m.quiz.value;
        var qs := quiz.questions.value;
        match At(replies, next + 1)
        case Rejected(_) => Batch([row], [], [], 2)
        case Inserted(quizId) =>
          Batch([row], [QuizRowOf(quizId, moduleId, quiz)], QuestionRows(quizId, qs, |qs|, replies, next + 2), 2 + |qs|)
  }

  /** Every insert numbered `from` up to, not including, `from + n` is accepted. */
  predicate AllAccepted(replies: seq<InsertReply>, from: nat, n: nat)
    decreases n
  {
    n == 0 || (At(replies, from).Inserted? && AllAccepted(replies, from + 1, n - 1))
  }

  /**
   * The quiz part of an accepted module: without questions one insert is
   * sent and nothing more is added; with questions, a failed quiz insert
   * adds no quiz and no question rows, and an accepted one adds its quiz
   * row and the rows of its questions.
   */
  lemma ModuleBatchQuiz(courseId: string, m: GenModule, replies: seq<InsertReply>, next: nat)
    requires At(replies, next).Inserted?
    ensures var r := ModuleBatch(courseId, m, replies, next);
      var moduleId := At(replies, next).id;
      && (!HasQuestions(m) ==> r.used == 1)
      && (HasQuestions(m) && At(replies, next + 1).Rejected? ==>
            r.quizzes == [] && r.questions == [] && r.used == 2)
      && (HasQuestions(m) && At(replies, next + 1).Inserted? ==>
            var qs := m.quiz.value.questions.value;
            && r.quizzes == [QuizRowOf(At(replies, next + 1).id, moduleId, m.quiz.value)]
            && r.questions == QuestionRows(At(replies, next + 1).id, qs, |qs|, replies, next + 2)
            && r.used == 2 + |qs|)
  {
  }

  /** Accepting a run of inserts accepts each of its initial runs. */
  lemma {:induction false} AcceptedPrefix(replies: seq<InsertReply>, from: nat, n: nat, m: nat)
    requires m <= n && AllAccepted(replies, from, n)
    ensures AllAccepted(replies, from, m)
    ensures m < n ==> At(replies, from + m).Inserted?
    decreases m
  {
    if m > 0 {
      AcceptedPrefix(replies, from + 1, n - 1, m - 1);
    }
  }

  /** Two batches one after the other. */
  function Then(b: Batch, s: Batch): (r: Batch)
    ensures r.used == b.used + s.used
  {
    Batch(b.modules + s.modules, b.quizzes + s.quizzes, b.questions + s.questions, b.used + s.used)
  }

  /**
   * The rows for the first `n` generated modules, in list order, their
   * inserts answered from `At(replies, next)` on.
   */
  function Publication(courseId: string, mods: seq<GenModule>, n: nat, replies: seq<InsertReply>, next: nat): (r: Batch)
    requires n <= |mods|
    ensures r.used >= n && |r.modules| <= n
  {
    if n == 0 then Batch([], [], [], 0)
    else
      var b := Publication(courseId, mods, n - 1, replies, next);
      Then(b, ModuleBatch(courseId, mods[n - 1], replies, next + b.used))
  }

  /**
   * Each row of `r` is the row of one of the first `n` questions whose
   * insert (numbered from `next`) was accepted, with the id the store gave.
   */
  predicate FromAccepted(r: seq<QuestionRow>, quizId: string, qs: seq<GenQuestion>, n: nat, replies: seq<InsertReply>, next: nat)
    requires n <= |qs|
  {
    forall j :: 0 <= j < |r| ==> RowFromAccepted(r[j], quizId, qs, n, replies, next)
  }

  /** `row` is the row of one of the first `n` questions, its insert accepted. */
  predicate RowFromAccepted(row: QuestionRow, quizId: string, qs: seq<GenQuestion>, n: nat, replies: seq<InsertReply>, next: nat)
    requires n <= |qs|
  {
    exists k :: next <= k < next + n && At(replies, k).Inserted? && row == QuestionRowOf(At(replies, k).id, quizId, qs[k - next])
  }

  /** Each question row comes from an accepted insert: the row of that question with the id the store gave. */
  lemma {:induction false} QuestionRowsFromAccepted(quizId: string, qs: seq<GenQuestion>, n: nat, replies: seq<InsertReply>, next: nat)
    requires n <= |qs|
    ensures FromAccepted(QuestionRows(quizId, qs, n, replies, next), quizId, qs, n, replies, next)
  {
    if n > 0 {
      var init := QuestionRows(quizId, qs, n - 1, replies, next);
      var r := QuestionRows(quizId, qs, n, replies, next);
      QuestionRowsFromAccepted(quizId, qs, n - 1, replies, next);
      assert FromAccepted(init, quizId, qs, n - 1, replies, next);
      forall j | 0 <= j < |r|
        ensures RowFromAccepted(r[j], quizId, qs, n, replies, next)
      {
        if j < |init| {
          assert r[j] == init[j] && RowFromAccepted(init[j], quizId, qs, n - 1, replies, next);
          var k :| next <= k < next + (n - 1) && At(replies, k).Inserted?
            && init[j] == QuestionRowOf(At(replies, k).id, quizId, qs[k - next]);
          assert next <= k < next + n;
        } else {
          var k := next + n - 1;
          assert At(replies, k).Inserted? && r[j] == QuestionRowOf(At(replies, k).id, quizId, qs[k - next]);
        }
      }
    }
  }

  /** The `k`-th stored row is that of question `k`, its insert accepted, with the id the store gave. */
  predicate StoredAt(r: seq<QuestionRow>, k: int, quizId: string, qs: seq<GenQuestion>, replies: seq<InsertReply>, next: nat)
    requires 0 <= k < |r| && k < |qs|
  {
    At(replies, next + k).Inserted? && r[k] == QuestionRowOf(At(replies, next + k).id, quizId, qs[k])
  }

  /** When every question insert is accepted, each question gets its row, in order. */
  lemma {:induction false} QuestionRowsAllAccepted(quizId: string, qs: seq<GenQuestion>, n: nat, replies: seq<InsertReply>, next: nat)
    requires n <= |qs| && AllAccepted(replies, next, n)
    ensures |QuestionRows(quizId, qs, n, replies, next)| == n
    ensures forall k :: 0 <= k < n ==> StoredAt(QuestionRows(quizId, qs, n, replies, next), k, quizId, qs, replies, next)
  {
    if n > 0 {
      AcceptedPrefix(replies, next, n, n - 1);
      QuestionRowsAllAccepted(quizId, qs, n - 1, replies, next);
      var init := QuestionRows(quizId, qs, n - 1, replies, next);
      var r := QuestionRows(quizId, qs, n, replies, next);
      assert r == init + [QuestionRowOf(At(replies, next + n - 1).id, quizId, qs[n - 1])];
      forall k | 0 <= k < n
        ensures StoredAt(r, k, quizId, qs, replies, next)
      {
        if k < n - 1 {
          assert StoredAt(init, k, quizId, qs, replies, next);
          assert r[k] == init[k];
        }
      }
    }
  }

  /** When every question insert is rejected, no question row is stored. */
  lemma {:induction false} QuestionRowsAllRejected(quizId: string, qs: seq<GenQuestion>, n: nat, replies: seq<InsertReply>, next: nat)
    requires n <= |qs|
    requires forall k :: next <= k < next + n ==> At(replies, k).Rejected?
    ensures QuestionRows(quizId, qs, n, replies, next) == []
  {
    if n > 0 {
      QuestionRowsAllRejected(quizId, qs, n - 1, replies, next);
      assert At(replies, next + n - 1).Rejected?;
    }
  }

  /** Every question row belongs to the quiz it was inserted for and carries its defaults. */
  lemma {:induction false} QuestionRowsWellFormed(quizId: string, qs: seq<GenQuestion>, n: nat, replies: seq<InsertReply>, next: nat)
    requires n <= |qs|
    ensures forall r :: r in QuestionRows(quizId, qs, n, replies, next) ==> r.quizId == quizId && r.questionType != "" && r.sortOrder != 0
  {
    if n > 0 {
      QuestionRowsWellFormed(quizId, qs, n - 1, replies, next);
    }
  }

  /**
   * Every module row of a batch belongs to the course and has no video or
   * PDF and a non-zero duration and sort order; every quiz has a non-zero
   * passing score; every question has a type and a non-zero sort order.
   */
  predicate Defaulted(courseId: string, b: Batch)
  {
    && (forall r :: r in b.modules ==> r.courseId == courseId && r.videoUrl.None? && r.pdfUrl.None? && r.durationMinutes != 0 && r.sortOrder != 0)
    && (forall q :: q in b.quizzes ==> q.passingScore.Some? && q.passingScore.value != 0)
    && (forall q :: q in b.questions ==> q.questionType != "" && q.sortOrder != 0)
  }

  /** Every quiz of a batch belongs to one of its module rows, every question to one of its quizzes. */
  predicate Linked(b: Batch)
  {
    && (forall q :: q in b.quizzes ==> exists r :: r in b.modules && r.id == q.moduleId)
    && (forall q :: q in b.questions ==> exists z :: z in b.quizzes && z.id == q.quizId)
  }

  lemma ThenDefaulted(courseId: string, p: Batch, b: Batch, s: Batch)
    ensures p == Then(b, s) && Defaulted(courseId, b) && Defaulted(courseId, s) ==> Defaulted(courseId, p)
  {
  }

  lemma ModuleBatchDefaulted(courseId: string, m: GenModule, replies: seq<InsertReply>, next: nat)
    ensures Defaulted(courseId, ModuleBatch(courseId, m, replies, next))
  {
    if At(replies, next).Inserted? && HasQuestions(m) && At(replies, next + 1).Inserted? {
      QuestionRowsWellFormed(At(replies, next + 1).id, m.quiz.value.questions.value, |m.quiz.value.questions.value|, replies, next + 2);
    }
  }

  lemma ModuleBatchLinked(courseId: string, m: GenModule, replies: seq<InsertReply>, next: nat)
    ensures Linked(ModuleBatch(courseId, m, replies, next))
  {
    var s := ModuleBatch(courseId, m, replies, next);
    if At(replies, next).Inserted? && HasQuestions(m) && At(replies, next + 1).Inserted? {
      var quizId := At(replies, next + 1).id;
      QuestionRowsWellFormed(quizId, m.quiz.value.questions.value, |m.quiz.value.questions.value|, replies, next + 2);
      assert s.quizzes == [QuizRowOf(quizId, At(replies, next).id, m.quiz.value)];
      assert s.quizzes[0] in s.quizzes;
      assert s.modules[0] in s.modules;
    }
  }

  lemma ThenLinked(p: Batch, b: Batch, s: Batch)
    ensures p == Then(b, s) && Linked(b) && Linked(s) ==> Linked(p)
  {
    if Linked(b) && Linked(s) {
      ThenLinkedWhen(b, s);
    }
  }

  lemma ThenLinkedWhen(b: Batch, s: Batch)
    requires Linked(b) && Linked(s)
    ensures Linked(Then(b, s))
  {
    var r := Then(b, s);
    forall q | q in r.quizzes
      ensures exists x :: x in r.modules && x.id == q.moduleId
    {
      if q in b.quizzes {
        var x :| x in b.modules && x.id == q.moduleId;
        assert x in r.modules;
      } else {
        var x :| x in s.modules && x.id == q.moduleId;
        assert x in r.modules;
      }
    }
    forall q | q in r.questions
      ensures exists z :: z in r.quizzes && z.id == q.quizId
    {
      if q in b.questions {
        var z :| z in b.quizzes && z.id == q.quizId;
        assert z in r.quizzes;
      } else {
        var z :| z in s.quizzes && z.id == q.quizId;
        assert z in r.quizzes;
      }
    }
  }

  /** The published rows carry their defaults, whatever the store answers. */
  lemma {:induction false} PublicationDefaulted(courseId: string, mods: seq<GenModule>, n: nat, replies: seq<InsertReply>, next: nat)
    requires n <= |mods|
    ensures Defaulted(courseId, Publication(courseId, mods, n, replies, next))
  {
    if n > 0 {
      var b := Publication(courseId, mods, n - 1, replies, next);
      var s := ModuleBatch(courseId, mods[n - 1], replies, next + b.used);
      assert Publication(courseId, mods, n, replies, next) == Then(b, s);
      PublicationDefaulted(courseId, mods, n - 1, replies, next);
      ModuleBatchDefaulted(courseId, mods[n - 1], replies, next + b.used);
      ThenDefaulted(courseId, Publication(courseId, mods, n, replies, next), b, s);
    }
  }

  /**
   * The published rows hang together, whatever the store answers: each
   * quiz row points at a module row and each question row at a quiz row of
   * the same publication.
   */
  lemma {:induction false} PublicationLinked(courseId: string, mods: seq<GenModule>, n: nat, replies: seq<InsertReply>, next: nat)
    requires n <= |mods|
    ensures Linked(Publication(courseId, mods, n, replies, next))
  {
    if n > 0 {
      var b := Publication(courseId, mods, n - 1, replies, next);
      var s := ModuleBatch(courseId, mods[n - 1], replies, next + b.used);
      assert Publication(courseId, mods, n, replies, next) == Then(b, s);
      PublicationLinked(courseId, mods, n - 1, replies, next);
      ModuleBatchLinked(courseId, mods[n - 1], replies, next + b.used);
      ThenLinked(Publication(courseId, mods, n, replies, next), b, s);
    }
  }

  /**
   * Publishing one more module: an accepted module insert appends exactly
   * that module's row after the earlier ones; a rejected one adds no row of
   * any kind, so the loop goes on with the next module.
   */
  lemma PublicationStep(courseId: string, mods: seq<GenModule>, n: nat, replies: seq<InsertReply>, next: nat)
    requires 0 < n <= |mods|
    ensures var b := Publication(courseId, mods, n - 1, replies, next);
      var p := Publication(courseId, mods, n, replies, next);
      var reply := At(replies, next + b.used);
      && (reply.Inserted? ==> p.modules == b.modules + [ModuleRowOf(reply.id, courseId, mods[n - 1])])
      && (reply.Rejected? ==> p.modules == b.modules && p.quizzes == b.quizzes && p.questions == b.questions && p.used == b.used + 1)
  {
    var b := Publication(courseId, mods, n - 1, replies, next);
    var s := ModuleBatch(courseId, mods[n - 1], replies, next + b.used);
    assert Publication(courseId, mods, n, replies, next) == Then(b, s);
    if s.modules == [] {
      assert b.modules + [] == b.modules && b.quizzes + [] == b.quizzes && b.questions + [] == b.questions;
    }
  }

  /**
   * When the store accepts every insert the publication sends, it stores
   * one module row per generated module, in order, each built from its
   * module with the id the store gave.
   */
  lemma {:induction false} PublicationAllAccepted(courseId: string, mods: seq<GenModule>, n: nat, replies: seq<InsertReply>, next: nat)
    requires n <= |mods|
    requires AllAccepted(replies, next, Publication(courseId, mods, n, replies, next).used)
    ensures var p := Publication(courseId, mods, n, replies, next);
      |p.modules| == n && forall i :: 0 <= i < n ==> p.modules[i] == ModuleRowOf(p.modules[i].id, courseId, mods[i])
  {
    if n > 0 {
      var b := Publication(courseId, mods, n - 1, replies, next);
      var s := ModuleBatch(courseId, mods[n - 1], replies, next + b.used);
      PublicationNext(courseId, mods, n - 1, replies, next);
      AcceptedPrefix(replies, next, Then(b, s).used, b.used);
      PublicationAllAccepted(courseId, mods, n - 1, replies, next);
      assert At(replies, next + b.used).Inserted?;
      assert s.modules == [ModuleRowOf(At(replies, next + b.used).id, courseId, mods[n - 1])];
      var p := Then(b, s);
      forall i | 0 <= i < n
        ensures p.modules[i] == ModuleRowOf(p.modules[i].id, courseId, mods[i])
      {
        if i < n - 1 {
          assert p.modules[i] == b.modules[i];
        }
      }
    }
  }

  /** The generator panel's state. */
  class Generator {
    var prompt: string
    var sector: string
    var level: string
    var generateImages: bool
    var generating: bool
    var suggestions: seq<Suggestion>
    var showSuggestions: bool
    var generatedCourse: Option<GeneratedCourse>
    var publishing: bool
    var showPublishDialog: bool
    var targetPlan: string
    var isPublished: bool
    /** How many times `onCoursePublished` has been called. */
    var publishedNotices: nat

    constructor ()
      ensures prompt == "" && sector == "education" && level == "debutant" && generateImages
      ensures !generating && suggestions == [] && !showSuggestions && generatedCourse.None?
      ensures !publishing && !showPublishDialog && targetPlan == "decouverte" && isPublished
      ensures publishedNotices == 0
    {
      prompt, sector, level, generateImages := "", "education", "debutant", true;
      generating, suggestions, showSuggestions, generatedCourse := false, [], false, None;
      publishing, showPublishDialog, targetPlan, isPublished := false, false, "decouverte", true;
      publishedNotices := 0;
    }

    /**
     * `getSuggestions`: asks for ideas in the panel's sector; a reply with a
     * suggestion list shows it, anything else leaves the list as it was.
     */
    method GetSuggestions(server: CourseReply) returns (request: CourseRequest)
      modifies this`suggestions, this`showSuggestions
      ensures request == CourseRequest(None, Some(sector), None, false, Some("suggest"))
      ensures server.SuggestionsReply? && server.sheet.suggestions.Some? ==>
        suggestions == server.sheet.suggestions.value && showSuggestions
      ensures !(server.SuggestionsReply? && server.sheet.suggestions.Some?) ==>
        suggestions == old(suggestions) && showSuggestions == old(showSuggestions)
    {
      request := CourseRequest(None, Some(sector), None, false, Some("suggest"));
      if server.SuggestionsReply? && server.sheet.suggestions.Some? {
        suggestions := server.sheet.suggestions.value;
        showSuggestions := true;
      }
    }

    /** Picking a suggestion fills the form from it and hides the list. */
    method PickSuggestion(s: Suggestion)
      modifies this`prompt, this`sector, this`level, this`showSuggestions
      ensures prompt == s.title && sector == s.sector && level == s.level && !showSuggestions
    {
      prompt := s.title;
      sector := s.sector;
      level := s.level;
      showSuggestions := false;
    }

    /**
     * `generateCourse`: nothing happens for a blank prompt; otherwise the
     * previous course is dropped and replaced by the generated one, if the
     * function delivered one (any error reply is non-2xx and is thrown).
     */
    method Generate(server: CourseReply) returns (request: Option<CourseRequest>)
      modifies this`generating, this`generatedCourse
      ensures IsBlank(prompt) ==> request.None? && generatedCourse == old(generatedCourse) && generating == old(generating)
      ensures !IsBlank(prompt) ==>
        request == Some(CourseRequest(Some(prompt), Some(sector), Some(level), generateImages, Some("generate")))
        && generatedCourse == (if server.GeneratedReply? then Some(server.data) else None)
        && !generating
    {
      if IsBlank(prompt) {
        return None;
      }
      generating := true;
      generatedCourse := None;
      request := Some(CourseRequest(Some(prompt), Some(sector), Some(level), generateImages, Some("generate")));
      if server.GeneratedReply? {
        generatedCourse := Some(server.data);
      }
      generating := false;
    }

    /**
     * `publishCourse`. Without a generated course it returns at once. A
     * failed course insert aborts with nothing else written. Otherwise the
     * rows of `Publication` are appended, the form is reset, and the parent
     * is notified once. `publishing` is false afterwards in every case.
     */
    method PublishCourse(db: Store, replies: seq<InsertReply>, now: int)
      modifies this`generatedCourse, this`prompt, this`showPublishDialog, this`publishing, this`publishedNotices
      modifies db`courses, db`modules, db`quizzes, db`questions
      ensures old(generatedCourse).None? ==>
        generatedCourse == old(generatedCourse) && prompt == old(prompt) && showPublishDialog == old(showPublishDialog)
        && publishing == old(publishing) && publishedNotices == old(publishedNotices)
        && db.courses == old(db.courses) && db.modules == old(db.modules)
        && db.quizzes == old(db.quizzes) && db.questions == old(db.questions)
      ensures old(generatedCourse).Some? ==> !publishing
      ensures old(generatedCourse).Some? && At(replies, 0).Rejected? ==>
        generatedCourse == old(generatedCourse) && prompt == old(prompt) && showPublishDialog == old(showPublishDialog)
        && publishedNotices == old(publishedNotices)
        && db.courses == old(db.courses) && db.modules == old(db.modules)
        && db.quizzes == old(db.quizzes) && db.questions == old(db.questions)
      ensures old(generatedCourse).Some? && At(replies, 0).Inserted? ==>
        var g := old(generatedCourse).value;
        var courseId := At(replies, 0).id;
        var b := Publication(courseId, g.modules, |g.modules|, replies, 1);
        && db.courses == old(db.courses) + [CourseRowOf(courseId, g.course, isPublished, now)]
        && db.modules == old(db.modules) + b.modules
        && db.quizzes == old(db.quizzes) + b.quizzes
        && db.questions == old(db.questions) + b.questions
        && generatedCourse.None? && prompt == "" && !showPublishDialog
        && publishedNotices == old(publishedNotices) + 1
    {
      if generatedCourse.None? {
        return;
      }
      var g := generatedCourse.value;
      publishing := true;
      if At(replies, 0).Rejected? {
        publishing := false;
        return;
      }
      var courseId := At(replies, 0).id;
      db.courses := db.courses + [CourseRowOf(courseId, g.course, isPublished, now)];
      PublishModules(db, courseId, g.modules, replies);
      generatedCourse := None;
      prompt := "";
      showPublishDialog := false;
      publishedNotices := publishedNotices + 1;
      publishing := false;
    }
  }

  /** The publication tables of `db` are those of `base` followed by the rows of `b`. */
  ghost predicate Extends(db: Store, base: Batch, b: Batch)
    reads db
  {
    db.modules == base.modules + b.modules && db.quizzes == base.quizzes + b.quizzes && db.questions == base.questions + b.questions
  }

  /** A publication of one more module is the shorter one followed by that module's batch. */
  lemma PublicationNext(courseId: string, mods: seq<GenModule>, n: nat, replies: seq<InsertReply>, next: nat)
    requires n < |mods|
    ensures var b := Publication(courseId, mods, n, replies, next);
      Publication(courseId, mods, n + 1, replies, next) == Then(b, ModuleBatch(courseId, mods[n], replies, next + b.used))
  {
  }

  /** Appending a batch to tables that extend `base` by `b` extends `base` by `Then(b, s)`. */
  lemma ThenAppends(base: Batch, b: Batch, s: Batch)
    ensures base.modules + Then(b, s).modules == (base.modules + b.modules) + s.modules
    ensures base.quizzes + Then(b, s).quizzes == (base.quizzes + b.quizzes) + s.quizzes
    ensures base.questions + Then(b, s).questions == (base.questions + b.questions) + s.questions
  {
    AppendAssoc(base.modules, b.modules, s.modules);
    AppendAssoc(base.quizzes, b.quizzes, s.quizzes);
    AppendAssoc(base.questions, b.questions, s.questions);
  }

  /** The module loop of `publishCourse`, its inserts answered from `At(replies, 1)` on. */
  method PublishModules(db: Store, courseId: string, mods: seq<GenModule>, replies: seq<InsertReply>)
    modifies db`modules, db`quizzes, db`questions
    ensures var b := Publication(courseId, mods, |mods|, replies, 1);
      && db.modules == old(db.modules) + b.modules
      && db.quizzes == old(db.quizzes) + b.quizzes
      && db.questions == old(db.questions) + b.questions
  {
    ghost var base := Batch(db.modules, db.quizzes, db.questions, 0);
    var b := Batch([], [], [], 0);
    var i := 0;
    while i < |mods|
      invariant i <= |mods| && b == Publication(courseId, mods, i, replies, 1) && Extends(db, base, b)
    {
      var s := ModuleBatch(courseId, mods[i], replies, 1 + b.used);
      PublicationNext(courseId, mods, i, replies, 1);
      PublishModule(db, courseId, mods[i], replies, 1 + b.used);
      ThenAppends(base, b, s);
      b := Then(b, s);
      i := i + 1;
    }
  }

  /**
   * One pass of the module loop: the module insert, then, unless it failed
   * (`continue`), the quiz insert and the question inserts.
   */
  method PublishModule(db: Store, courseId: string, m: GenModule, replies: seq<InsertReply>, next: nat)
    modifies db`modules, db`quizzes, db`questions
    ensures var s := ModuleBatch(courseId, m, replies, next);
      && db.modules == old(db.modules) + s.modules
      && db.quizzes == old(db.quizzes) + s.quizzes
      && db.questions == old(db.questions) + s.questions
  {
    if At(replies, next).Rejected? {
      return;
    }
    var moduleId := At(replies, next).id;
    db.modules := db.modules + [ModuleRowOf(moduleId, courseId, m)];
    if !HasQuestions(m) {
      return;
    }
    var quiz := m.quiz.value;
    if At(replies, next + 1).Rejected? {
      return;
    }
    var quizId := At(replies, next + 1).id;
    db.quizzes := db.quizzes + [QuizRowOf(quizId, moduleId, quiz)];
    var qs := quiz.questions.value;
    var j := 0;
    while j < |qs|
      invariant 0 <= j <= |qs|
      invariant db.modules == old(db.modules) + [ModuleRowOf(moduleId, courseId, m)]
      invariant db.quizzes == old(db.quizzes) + [QuizRowOf(quizId, moduleId, quiz)]
      invariant db.questions == old(db.questions) + QuestionRows(quizId, qs, j, replies, next + 2)
    {
      match At(replies, next + 2 + j) {
        case Inserted(id) =>
          db.questions := db.questions + [QuestionRowOf(id, quizId, qs[j])];
        case Rejected(_) =>
      }
      j := j + 1;
    }
  }
}
