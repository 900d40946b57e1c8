/**
 * The admin console: the role gate, the overview statistics, course
 * creation and deletion, and the AI blog editor's draft and publication.
 *
 * Query results ordered by `created_at` come in as parameters in that
 * order (the store does not record creation times); `null` data is `None`.
 */
module Admin {
  import opened Wrappers
  import opened Strings
  import opened Seqs
  import opened Records
  import opened AiGateway
  import opened GenerateBlog

  /** Where the gate sends the visitor. */
  datatype Gate = ToAuth | ToDashboard | Open

  /**
   * No user goes to /auth; a user whose role rows (missing when the query
   * fails) hold no "admin" goes to /dashboard.
   */
  function GateOf(user: Option<string>, roles: Option<seq<string>>): (r: Gate)
    ensures r == ToAuth <==> user.None?
    ensures r == Open <==> user.Some? && roles.Some? && "admin" in roles.value
  {
    if user.None? then ToAuth
    else if roles.Some? && "admin" in roles.value then Open
    else ToDashboard
  }

  /** The overview cards. */
  datatype Stats = Stats(users: nat, courses: nat, payments: nat, revenue: int)

  /** `.limit(50)` on a newest-first list. */
  function Recent(ps: seq<Payment>): (r: seq<Payment>)
    ensures |r| <= 50 && |r| <= |ps| && r == ps[..|r|]
    ensures |ps| <= 50 ==> r == ps
    ensures |ps| > 50 ==> |r| == 50
  {
    if |ps| <= 50 then ps else ps[..50]
  }

  predicate IsCompleted(p: Payment) { p.status == Completed }

  /** The sum of `amount` (a number column, so `amount || 0` is the amount itself). */
  function Total(ps: seq<Payment>): int
  {
    if ps == [] then 0 else ps[0].amount + Total(ps[1..])
  }

  function CompletedPayments(ps: seq<Payment>): (r: seq<Payment>)
    ensures forall p :: p in r <==> p in ps && IsCompleted(p)
  {
    FilterMembers(ps, IsCompleted);
    Filter(ps, IsCompleted)
  }

  /**
   * The cards: user and course counts are the list lengths, the payment
   * count is that of the completed payments, the revenue their total.
   */
  function StatsOf(courses: seq<CourseRow>, payments: seq<Payment>, users: seq<Profile>): (r: Stats)
    ensures r.users == |users| && r.courses == |courses|
    ensures r.payments == |CompletedPayments(payments)| <= |payments|
    ensures r.revenue == Total(CompletedPayments(payments))
  {
    Stats(|users|, |courses|, |CompletedPayments(payments)|, Total(CompletedPayments(payments)))
  }

  lemma {:induction false} TotalAppend(a: seq<Payment>, b: seq<Payment>)
    ensures Total(a + b) == Total(a) + Total(b)
    decreases |a|
  {
    if a != [] {
      assert (a + b)[0] == a[0];
      assert (a + b)[1..] == a[1..] + b;
      TotalAppend(a[1..], b);
    } else {
      assert a + b == b;
    }
  }

  /**
   * The revenue of two batches of payments is the sum of their revenues;
   * a payment that is not completed adds nothing.
   */
  lemma RevenueSplits(a: seq<Payment>, b: seq<Payment>)
    ensures StatsOf([], a + b, []).revenue == StatsOf([], a, []).revenue + StatsOf([], b, []).revenue
    ensures StatsOf([], a + b, []).payments == StatsOf([], a, []).payments + StatsOf([], b, []).payments
  {
    FilterAppend(a, b, IsCompleted);
    TotalAppend(CompletedPayments(a), CompletedPayments(b));
  }

  lemma {:induction false} TotalBetween(ps: seq<Payment>, lo: int, hi: int)
    requires forall i :: 0 <= i < |ps| ==> lo <= ps[i].amount <= hi
    ensures lo * |ps| <= Total(ps) <= hi * |ps|
    decreases |ps|
  {
    if ps != [] {
      TotalBetween(ps[1..], lo, hi);
      assert lo * |ps| == lo + lo * |ps[1..]|;
      assert hi * |ps| == hi + hi * |ps[1..]|;
    }
  }

  /**
   * If every completed payment's amount lies in `lo..hi`, the revenue lies
   * between `lo` and `hi` times the completed count; with non-negative
   * amounts it is never negative.
   */
  lemma RevenueBetween(ps: seq<Payment>, lo: int, hi: int)
    requires forall p :: p in ps && IsCompleted(p) ==> lo <= p.amount <= hi
    ensures var s := StatsOf([], ps, []); lo * s.payments <= s.revenue <= hi * s.payments
  {
    var c := CompletedPayments(ps);
    assert forall i :: 0 <= i < |c| ==> c[i] in ps && IsCompleted(c[i]);
    TotalBetween(c, lo, hi);
  }

  lemma RevenueNonNegative(ps: seq<Payment>)
    requires forall p :: p in ps ==> p.amount >= 0
    ensures StatsOf([], ps, []).revenue >= 0
  {
    var m := if ps == [] then 0 else MaxAmount(ps);
    RevenueBetween(ps, 0, m);
  }

  function MaxAmount(ps: seq<Payment>): (r: int)
    requires ps != []
    ensures forall p :: p in ps ==> p.amount <= r
  {
    if |ps| == 1 then ps[0].amount
    else var m := MaxAmount(ps[1..]); if ps[0].amount > m then ps[0].amount else m
  }

  /** `courses.filter(c => c.id !== id)`. */
  function WithoutCourse(cs: seq<CourseRow>, id: string): (r: seq<CourseRow>)
    ensures forall c :: c in r <==> c in cs && c.id != id
    ensures IsSubsequence(r, cs)
  {
    var keep := (c: CourseRow) => c.id != id;
    FilterMembers(cs, keep);
    FilterIsSubsequence(cs, keep);
    Filter(cs, keep)
  }

  /** Deleting a course that is not listed changes nothing; deleting twice is deleting once. */
  lemma WithoutCourseIdempotent(cs: seq<CourseRow>, id: string)
    ensures WithoutCourse(WithoutCourse(cs, id), id) == WithoutCourse(cs, id)
    ensures (forall c :: c in cs ==> c.id != id) ==> WithoutCourse(cs, id) == cs
  {
    var keep := (c: CourseRow) => c.id != id;
    FilterKeepsAll(Filter(cs, keep), keep);
    FilterKeepsAll(cs, keep);
  }

  /** The new-course form. */
  datatype CourseDraft = CourseDraft(title: string, description: string, level: string, sector: string, format: string, durationMinutes: int)

  const EmptyCourseDraft := CourseDraft("", "", "debutant", "education", "video", 60)

  /** `{ ...newCourse, is_published: true }`. */
  function CourseRowFrom(id: string, d: CourseDraft): (r: CourseRow)
    ensures r.isPublished && r.title == d.title && r.description == Some(d.description) && r.sector == Some(d.sector)
    ensures r.level == d.level && r.format == d.format && r.durationMinutes == d.durationMinutes && r.sortOrder.None?
  {
    CourseRow(id, d.title, Some(d.description), Some(d.sector), d.level, d.durationMinutes, d.format, true, None)
  }

  /** The generated post under review. */
  datatype PostDraft = PostDraft(title: string, slug: string, content: string, summary: string, thumbnailUrl: Option<string>)

  /**
   * The draft built from a generated article: a missing or empty title,
   * slug, content or summary gets "ARTICLE GÉNÉRÉ", "article-" and the
   * clock, "" and ""; a missing image gives no thumbnail.
   */
  function DraftFrom(a: Article, image: Option<string>, now: int): (r: PostDraft)
    ensures r.title != "" && r.slug != ""
    ensures Truthy(a.title) ==> r.title == a.title.value
    ensures !Truthy(a.title) ==> r.title == "ARTICLE GÉNÉRÉ"
    ensures !Truthy(a.slug) ==> r.slug == "article-" + IntText(now)
    ensures !Truthy(a.content) ==> r.content == ""
    ensures Truthy(a.slug) ==> r.slug == a.slug.value
    ensures Truthy(a.content) ==> r.content == a.content.value
    ensures Truthy(a.summary) ==> r.summary == a.summary.value
    ensures !Truthy(a.summary) ==> r.summary == ""
    ensures r.thumbnailUrl.Some? <==> Truthy(image)
    ensures r.thumbnailUrl.Some? ==> r.thumbnailUrl == image
  {
    PostDraft(TextOr(a.title, "ARTICLE GÉNÉRÉ"), TextOr(a.slug, "article-" + IntText(now)),
      TextOr(a.content, ""), TextOr(a.summary, ""), if Truthy(image) then image else None)
  }

  /**
   * The edge function's fallback article (its model reply was not JSON)
   * turns into a draft titled "ARTICLE GÉNÉRÉ" with an empty summary, the
   * raw reply as content and the function's own slug.
   */
  lemma FallbackDraft(rawText: string, fnNow: int, pageNow: int, image: Option<string>)
    ensures var d := DraftFrom(FallbackArticle(rawText, fnNow), image, pageNow);
      && d.title == "ARTICLE GÉNÉRÉ" && d.summary == "" && d.content == rawText
      && StartsWith(d.slug, "article-genere-")
  {
    var a := FallbackArticle(rawText, fnNow);
    assert a.title == Some("ARTICLE GÉNÉRÉ");
    assert Truthy(a.slug) by {
      assert |a.slug.value| >= |"article-genere-"|;
    }
  }

  /** What the thumbnail upload did. */
  datatype Upload = UploadThrew | UploadFailed | Uploaded(publicUrl: string)

  /**
   * A `data:` thumbnail is replaced by its public URL after an upload,
   * kept when the upload reports an error, and dropped when it throws;
   * any other thumbnail is stored as it is.
   */
  function StoredThumbnail(thumb: Option<string>, upload: Upload): (r: Option<string>)
    ensures !(thumb.Some? && StartsWith(thumb.value, "data:")) ==> r == thumb
    ensures thumb.Some? && StartsWith(thumb.value, "data:") ==>
      r == match upload { case UploadThrew => None case UploadFailed => thumb case Uploaded(u) => Some(u) }
  {
    if thumb.Some? && StartsWith(thumb.value, "data:") then
      match upload
      case UploadThrew => None
      case UploadFailed => thumb
      case Uploaded(u) => Some(u)
    else thumb
  }

  /** The console's state. */
  class Console {
    var loading: bool
    var stats: Stats
    var courses: seq<CourseRow>
    var payments: seq<Payment>
    var users: seq<Profile>
    var blogPosts: seq<BlogPostRow>
    var newCourse: CourseDraft
    var blogInput: string
    var generatedPost: Option<PostDraft>
    var generating: bool
    var showGenDialog: bool

    constructor ()
      ensures loading && stats == Stats(0, 0, 0, 0) && courses == [] && payments == [] && users == [] && blogPosts == []
      ensures newCourse == EmptyCourseDraft && blogInput == "" && generatedPost.None? && !generating && !showGenDialog
    {
      loading, stats, courses, payments, users, blogPosts := true, Stats(0, 0, 0, 0), [], [], [], [];
      newCourse, blogInput, generatedPost, generating, showGenDialog := EmptyCourseDraft, "", None, false, false;
    }

    /**
     * `init`: the gate first, and nothing is loaded past it; then the lists
     * (`data || []`), the 50 newest payments, and the cards computed from them.
     */
    method Init(user: Option<string>, roles: Option<seq<string>>, fetchedCourses: Option<seq<CourseRow>>,
                newestPayments: Option<seq<Payment>>, fetchedUsers: Option<seq<Profile>>, fetchedPosts: Option<seq<BlogPostRow>>)
      returns (redirect: Option<string>)
      modifies this`loading, this`stats, this`courses, this`payments, this`users, this`blogPosts
      ensures GateOf(user, roles) == ToAuth ==> redirect == Some("/auth")
      ensures GateOf(user, roles) == ToDashboard ==> redirect == Some("/dashboard")
      ensures GateOf(user, roles) != Open ==>
        loading == old(loading) && stats == old(stats) && courses == old(courses) && payments == old(payments)
        && users == old(users) && blogPosts == old(blogPosts)
      ensures GateOf(user, roles) == Open ==>
        && redirect.None? && !loading
        && courses == fetchedCourses.GetOr([]) && payments == Recent(newestPayments.GetOr([]))
        && users == fetchedUsers.GetOr([]) && blogPosts == fetchedPosts.GetOr([])
        && stats == StatsOf(courses, payments, users)
    {
      var gate := GateOf(user, roles);
      if gate == ToAuth {
        return Some("/auth");
      }
      if gate == ToDashboard {
        return Some("/dashboard");
      }
      courses := fetchedCourses.GetOr([]);
      payments := Recent(newestPayments.GetOr([]));
      users := fetchedUsers.GetOr([]);
      blogPosts := fetchedPosts.GetOr([]);
      stats := StatsOf(courses, payments, users);
      loading := false;
      redirect := None;
    }

    /**
     * `addCourse`: a rejected insert leaves the form as it is; otherwise the
     * row is added published, the list is reloaded and the form reset.
     */
    method AddCourse(db: Store, insert: InsertReply, reload: Option<seq<CourseRow>>)
      modifies db`courses, this`courses, this`newCourse
      ensures insert.Rejected? ==> db.courses == old(db.courses) && courses == old(courses) && newCourse == old(newCourse)
      ensures insert.Inserted? ==>
        db.courses == old(db.courses) + [CourseRowFrom(insert.id, old(newCourse))]
        && courses == reload.GetOr([]) && newCourse == EmptyCourseDraft
    {
      if insert.Rejected? {
        return;
      }
      db.courses := db.courses + [CourseRowFrom(insert.id, newCourse)];
      courses := reload.GetOr([]);
      newCourse := EmptyCourseDraft;
    }

    /**
     * `deleteCourse`: the store drops the rows with that id when it accepts
     * the delete; the list drops them whatever the store answered.
     */
    method DeleteCourse(db: Store, id: string, accepted: bool)
      modifies db`courses, this`courses
      ensures db.courses == if accepted then WithoutCourse(old(db.courses), id) else old(db.courses)
      ensures courses == WithoutCourse(old(courses), id)
    {
      if accepted {
        db.courses := WithoutCourse(db.courses, id);
      }
      courses := WithoutCourse(courses, id);
    }

    /**
     * `generateBlog`: sends the editor's text and the image choice; a
     * delivered article becomes the draft, while an error reply (always
     * non-2xx) or a failed call keeps the previous draft.
     */
    method GenerateBlog(withImage: bool, server: Option<BlogReply>, now: int) returns (request: BlogRequest)
      modifies this`showGenDialog, this`generating, this`generatedPost
      ensures request == BlogRequest(Some(blogInput), withImage)
      ensures !showGenDialog && !generating
      ensures server.Some? && server.value.ArticleReply? ==>
        generatedPost == Some(DraftFrom(server.value.article, server.value.image, now))
      ensures !(server.Some? && server.value.ArticleReply?) ==> generatedPost == old(generatedPost)
    {
      request := BlogRequest(Some(blogInput), withImage);
      showGenDialog := false;
      generating := true;
      if server.Some? && server.value.ArticleReply? {
        generatedPost := Some(DraftFrom(server.value.article, server.value.image, now));
      }
      generating := false;
    }

    /**
     * `publishPost`: without a draft nothing happens. The thumbnail goes
     * through `StoredThumbnail`; the row is stored published, by the
     * signed-in user, without the summary; a rejected insert keeps the draft.
     */
    method PublishPost(db: Store, user: Option<string>, upload: Upload, insert: InsertReply, reload: Option<seq<BlogPostRow>>)
      returns (row: Option<BlogPostRow>)
      modifies db`blogPosts, this`blogPosts, this`generatedPost, this`blogInput
      ensures old(generatedPost).None? ==> row.None?
      ensures old(generatedPost).Some? ==>
        var d := old(generatedPost).value;
        row == Some(BlogPostRow(d.title, d.slug, d.content, StoredThumbnail(d.thumbnailUrl, upload), user, true))
      ensures old(generatedPost).None? || insert.Rejected? ==>
        db.blogPosts == old(db.blogPosts) && blogPosts == old(blogPosts)
        && generatedPost == old(generatedPost) && blogInput == old(blogInput)
      ensures old(generatedPost).Some? && insert.Inserted? ==>
        db.blogPosts == old(db.blogPosts) + [row.value] && blogPosts == reload.GetOr([])
        && generatedPost.None? && blogInput == ""
    {
      if generatedPost.None? {
        return None;
      }
      var d := generatedPost.value;
      var thumbnail := StoredThumbnail(d.thumbnailUrl, upload);
      var r := BlogPostRow(d.title, d.slug, d.content, thumbnail, user, true);
      row := Some(r);
      if insert.Rejected? {
        return;
      }
      db.blogPosts := db.blogPosts + [r];
      blogPosts := reload.GetOr([]);
      generatedPost := None;
      blogInput := "";
    }
  }
}
