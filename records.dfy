/**
 * The hosted record store the application talks to: one datatype per table
 * row the core reads or writes, and a `Store` object holding the tables.
 * Keyed tables are maps; tables the core only appends to or scans are
 * sequences in insertion order.
 */
module Records {
  import opened Wrappers

  /** The `payment_status` enum. */
  datatype PaymentStatus = Pending | Completed | Failed | Cancelled

  /**
   * A `payments` row. `plan` holds the text each writer sends (every writer
   * casts it with `as any`); `providerData` is the raw provider JSON kept
   * in the `cinetpay_data` column.
   */
  datatype Payment = Payment(
    userId: string,
    amount: int,
    plan: string,
    paymentMethod: Option<string>,
    status: PaymentStatus,
    transactionId: Option<string>,
    providerData: Option<string>)

  /** A `profiles` row, keyed by `user_id`. */
  datatype Profile = Profile(plan: Option<string>, planActive: bool, fullName: Option<string>)

  /** The `(course_id, user_id)` pair that identifies an enrollment. */
  datatype EnrollmentKey = EnrollmentKey(courseId: string, userId: string)

  /** An `enrollments` row. */
  datatype Enrollment = Enrollment(
    progressPercent: Option<int>,
    completed: Option<bool>,
    completedAt: Option<string>,
    enrolledAt: Option<string>)

  /** A `quiz_attempts` row. */
  datatype Attempt = Attempt(quizId: string, userId: string, score: int, passed: bool, answers: map<string, string>)

  /** A `quizzes` row. */
  datatype QuizRow = QuizRow(id: string, moduleId: string, title: string, passingScore: Option<int>)

  /** A `quiz_questions` row. */
  datatype QuestionRow = QuestionRow(
    id: string,
    quizId: string,
    question: string,
    questionType: string,
    options: seq<string>,
    correctAnswer: string,
    sortOrder: int)

  /** A `courses` row. */
  datatype CourseRow = CourseRow(
    id: string,
    title: string,
    description: Option<string>,
    sector: Option<string>,
    level: string,
    durationMinutes: int,
    format: string,
    isPublished: bool,
    sortOrder: Option<int>)

  /** A `modules` row. */
  datatype ModuleRow = ModuleRow(
    id: string,
    courseId: string,
    title: string,
    content: string,
    durationMinutes: int,
    sortOrder: int,
    videoUrl: Option<string>,
    pdfUrl: Option<string>)

  /** A `blog_posts` row. */
  datatype BlogPostRow = BlogPostRow(
    title: string,
    slug: string,
    content: string,
    thumbnailUrl: Option<string>,
    authorId: Option<string>,
    isPublished: bool)

  /** The store's answer to one insert: the new row's id, or an error. */
  datatype InsertReply = Inserted(id: string) | Rejected(message: string)

  /** The two tables the payment flow writes. */
  datatype Ledger = Ledger(payments: map<string, Payment>, profiles: map<string, Profile>)

  /**
   * `profiles.update({plan, plan_active: true}).eq("user_id", userId)`:
   * the row of `userId`, if there is one, gets the plan and becomes active.
   */
  function ActivatePlan(profiles: map<string, Profile>, userId: string, plan: string): (r: map<string, Profile>)
    ensures r.Keys == profiles.Keys
    ensures userId in r ==> r[userId].plan == Some(plan) && r[userId].planActive
    ensures userId in r ==> r[userId].fullName == profiles[userId].fullName
    ensures forall u :: u in profiles && u != userId ==> r[u] == profiles[u]
  {
    if userId in profiles then profiles[userId := profiles[userId].(plan := Some(plan), planActive := true)]
    else profiles
  }

  /** Activating the same plan twice is activating it once. */
  lemma ActivatePlanIdempotent(profiles: map<string, Profile>, userId: string, plan: string)
    ensures ActivatePlan(ActivatePlan(profiles, userId, plan), userId, plan) == ActivatePlan(profiles, userId, plan)
  {
  }

  /** The tables of the hosted store that the modelled code touches. */
  class Store {
    var payments: map<string, Payment>
    var profiles: map<string, Profile>
    var enrollments: map<EnrollmentKey, Enrollment>
    var attempts: seq<Attempt>
    var courses: seq<CourseRow>
    var modules: seq<ModuleRow>
    var quizzes: seq<QuizRow>
    var questions: seq<QuestionRow>
    var blogPosts: seq<BlogPostRow>

    /** An empty store. */
    constructor ()
      ensures payments == map[] && profiles == map[] && enrollments == map[]
      ensures attempts == [] && courses == [] && modules == [] && quizzes == []
      ensures questions == [] && blogPosts == []
    {
      payments, profiles, enrollments := map[], map[], map[];
      attempts, courses, modules, quizzes, questions, blogPosts := [], [], [], [], [], [];
    }
  }
}
