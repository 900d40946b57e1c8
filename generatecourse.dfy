/**
 * The course-generation edge function: in "suggest" mode it returns the
 * model's course ideas, otherwise a whole generated course tree, with
 * cover images merged into its first three modules.
 */
module GenerateCourse {
  import opened Wrappers
  import opened Strings
  import opened AiGateway

  /** A generated quiz question; the optional fields are the ones the publisher defaults. */
  datatype GenQuestion = GenQuestion(question: string, questionType: Option<string>, options: seq<string>, correctAnswer: string, sortOrder: Option<int>)

  /** A generated quiz; `questions` is missing when the model left it out. */
  datatype GenQuiz = GenQuiz(title: string, passingScore: Option<int>, questions: Option<seq<GenQuestion>>)

  /** A generated module; `imageUrl` is set only by the image merge. */
  datatype GenModule = GenModule(
    title: string,
    content: string,
    durationMinutes: Option<int>,
    sortOrder: Option<int>,
    imageUrl: Option<string>,
    quiz: Option<GenQuiz>)

  /** The generated course's own fields. */
  datatype GenCourseInfo = GenCourseInfo(title: string, description: string, sector: string, level: string, durationMinutes: Option<int>)

  /** The parsed course tree; a missing `modules` list reads as empty. */
  datatype GeneratedCourse = GeneratedCourse(course: GenCourseInfo, modules: seq<GenModule>)

  /** One course idea of "suggest" mode. */
  datatype Suggestion = Suggestion(title: string, description: string, sector: string, level: string, durationMinutes: Option<int>, why: string)

  /** The parsed "suggest" reply, returned as it was parsed. */
  datatype SuggestionSheet = SuggestionSheet(suggestions: Option<seq<Suggestion>>)

  /** The request body. */
  datatype CourseRequest = CourseRequest(prompt: Option<string>, sector: Option<string>, level: Option<string>, generateImages: bool, mode: Option<string>)

  /** The function's reply: the parsed suggestions, `{success: true, data}`, or an error. */
  datatype CourseReply = SuggestionsReply(sheet: SuggestionSheet) | GeneratedReply(data: GeneratedCourse) | CourseFailure(failure: Failure)

  /** What one image job resolves to: the module index and the public URL, if any. */
  datatype ImageResult = ImageResult(idx: int, url: Option<string>)

  /** Suggest mode: the reply body is parsed whatever the HTTP status. */
  function SuggestOutcome(reply: AiReply, parse: string -> Parse<SuggestionSheet>): (r: CourseReply)
    ensures !r.GeneratedReply?
    ensures reply.AiThrew? ==> r == CourseFailure(Failure(500, reply.message))
    ensures reply.AiAnswered? && reply.content.ParseError? ==> r == CourseFailure(Failure(500, reply.content.message))
    ensures reply.AiAnswered? && reply.content.Parsed? ==>
      var parsed := parse(ExtractJson(ContentText(reply.content.value)));
      r == (if parsed.Parsed? then SuggestionsReply(parsed.value) else CourseFailure(Failure(500, parsed.message)))
  {
    match reply
    case AiThrew(m) => CourseFailure(Failure(500, m))
    case AiAnswered(_, _, content) =>
      if content.ParseError? then CourseFailure(Failure(500, content.message))
      else
        var parsed := parse(ExtractJson(ContentText(content.value)));
        if parsed.Parsed? then SuggestionsReply(parsed.value) else CourseFailure(Failure(500, parsed.message))
  }

  /** Suggest mode treats a refused call like an accepted one with the same body. */
  lemma SuggestIgnoresStatus(ok: bool, status: int, content: Parse<Option<string>>, parse: string -> Parse<SuggestionSheet>)
    ensures SuggestOutcome(AiAnswered(ok, status, content), parse) == SuggestOutcome(AiAnswered(true, 200, content), parse)
  {
  }

  /**
   * Generate mode before images: a refused call maps through
   * `StatusFailure`, and text that does not parse gives the fixed error
   * "Impossible de parser la réponse IA".
   */
  function GenerateOutcome(reply: AiReply, parse: string -> Parse<GeneratedCourse>): (r: CourseReply)
    ensures !r.SuggestionsReply?
    ensures reply.AiThrew? ==> r == CourseFailure(Failure(500, reply.message))
    ensures reply.AiAnswered? && !reply.ok ==> r == CourseFailure(StatusFailure(reply.status, "AI error: "))
    ensures reply.AiAnswered? && reply.ok && reply.content.ParseError? ==> r == CourseFailure(Failure(500, reply.content.message))
    ensures reply.AiAnswered? && reply.ok && reply.content.Parsed? ==>
      var parsed := parse(ExtractJson(ContentText(reply.content.value)));
      r == (if parsed.Parsed? then GeneratedReply(parsed.value) else CourseFailure(Failure(500, "Impossible de parser la réponse IA")))
  {
    match reply
    case AiThrew(m) => CourseFailure(Failure(500, m))
    case AiAnswered(ok, status, content) =>
      if !ok then CourseFailure(StatusFailure(status, "AI error: "))
      else if content.ParseError? then CourseFailure(Failure(500, content.message))
      else
        var parsed := parse(ExtractJson(ContentText(content.value)));
        if parsed.Parsed? then GeneratedReply(parsed.value) else CourseFailure(Failure(500, "Impossible de parser la réponse IA"))
  }

  function Min(a: int, b: int): int
  {
    if a < b then a else b
  }

  /** The image jobs: one per module among the first three, job `i` for module `i`. */
  function ImageResults(mods: seq<GenModule>, imageUrl: nat -> Option<string>): (r: seq<ImageResult>)
    ensures |r| == Min(3, |mods|)
    ensures forall i :: 0 <= i < |r| ==> r[i] == ImageResult(i, imageUrl(i))
  {
    seq(Min(3, |mods|), (i: int) requires 0 <= i => ImageResult(i, imageUrl(i)))
  }

  /** One step of the merge: set the module's `image_url` when the URL is truthy and the module exists. */
  function ApplyImage(mods: seq<GenModule>, res: ImageResult): (r: seq<GenModule>)
    ensures |r| == |mods|
  {
    if Truthy(res.url) && 0 <= res.idx < |mods| then mods[res.idx := mods[res.idx].(imageUrl := res.url)] else mods
  }

  /** `imageResults.forEach(...)`: the results applied in order. */
  function WithImages(mods: seq<GenModule>, results: seq<ImageResult>): (r: seq<GenModule>)
    ensures |r| == |mods|
    decreases |results|
  {
    if results == [] then mods else ApplyImage(WithImages(mods, results[..|results| - 1]), results[|results| - 1])
  }

  /**
   * Merging the jobs for the first `k` modules gives module `i < k` its URL
   * when that URL is truthy and leaves every other module as it was.
   */
  lemma {:induction false} WithImagesUpTo(mods: seq<GenModule>, imageUrl: nat -> Option<string>, k: nat)
    requires k <= |mods|
    ensures var r := WithImages(mods, seq(k, (i: int) requires 0 <= i => ImageResult(i, imageUrl(i))));
      forall i :: 0 <= i < |mods| ==>
        r[i] == (if i < k && Truthy(imageUrl(i)) then mods[i].(imageUrl := imageUrl(i)) else mods[i])
    decreases k
  {
    var results := seq(k, (i: int) requires 0 <= i => ImageResult(i, imageUrl(i)));
    if k > 0 {
      var shorter := seq(k - 1, (i: int) requires 0 <= i => ImageResult(i, imageUrl(i)));
      assert results[..k - 1] == shorter;
      WithImagesUpTo(mods, imageUrl, k - 1);
    }
  }

  /**
   * The image merge touches only the first three modules: each gets
   * `image_url` when its job produced a URL; every other module and field
   * is unchanged.
   */
  lemma ImagesOnFirstThree(mods: seq<GenModule>, imageUrl: nat -> Option<string>)
    ensures var r := WithImages(mods, ImageResults(mods, imageUrl));
      forall i :: 0 <= i < |mods| ==>
        r[i] == (if i < 3 && Truthy(imageUrl(i)) then mods[i].(imageUrl := imageUrl(i)) else mods[i])
  {
    assert ImageResults(mods, imageUrl) == seq(Min(3, |mods|), (i: int) requires 0 <= i => ImageResult(i, imageUrl(i)));
    WithImagesUpTo(mods, imageUrl, Min(3, |mods|));
  }

  /** The in-place `forEach` over the image results. */
  method MergeImages(a: array<GenModule>, results: seq<ImageResult>)
    modifies a
    ensures a[..] == WithImages(old(a[..]), results)
  {
    var n := 0;
    while n < |results|
      invariant 0 <= n <= |results|
      invariant a[..] == WithImages(old(a[..]), results[..n])
    {
      assert results[..n + 1][..n] == results[..n];
      var res := results[n];
      if Truthy(res.url) && 0 <= res.idx < a.Length {
        a[res.idx] := a[res.idx].(imageUrl := res.url);
      }
      n := n + 1;
    }
    assert results[..n] == results;
  }

  /**
   * The handler. `body` is the request as read by `req.json()`, `apiKey`
   * the gateway key, `reply` the answer to the one model call the mode
   * makes, `parseSuggestions` / `parseCourse` stand for `JSON.parse`, and
   * `imageUrl(i)` is the public URL of module `i`'s uploaded image, if the
   * image call and upload succeeded.
   */
  method HandleGenerateCourse(body: Parse<CourseRequest>, apiKey: Option<string>, reply: AiReply,
                              parseSuggestions: string -> Parse<SuggestionSheet>,
                              parseCourse: string -> Parse<GeneratedCourse>,
                              imageUrl: nat -> Option<string>)
    returns (r: CourseReply)
    ensures body.ParseError? ==> r == CourseFailure(Failure(500, body.message))
    ensures body.Parsed? && !Truthy(apiKey) ==> r == CourseFailure(Failure(500, "LOVABLE_API_KEY not configured"))
    ensures body.Parsed? && Truthy(apiKey) && body.value.mode == Some("suggest") ==> r == SuggestOutcome(reply, parseSuggestions)
    ensures body.Parsed? && Truthy(apiKey) && body.value.mode != Some("suggest") ==>
      var g := GenerateOutcome(reply, parseCourse);
      && (g.CourseFailure? ==> r == g)
      && (g.GeneratedReply? && !(body.value.generateImages && |g.data.modules| > 0) ==> r == g)
      && (g.GeneratedReply? && body.value.generateImages && |g.data.modules| > 0 ==>
            r == GeneratedReply(g.data.(modules := WithImages(g.data.modules, ImageResults(g.data.modules, imageUrl)))))
  {
    if body.ParseError? {
      return CourseFailure(Failure(500, body.message));
    }
    if !Truthy(apiKey) {
      return CourseFailure(Failure(500, "LOVABLE_API_KEY not configured"));
    }
    if body.value.mode == Some("suggest") {
      return SuggestOutcome(reply, parseSuggestions);
    }
    r := GenerateOutcome(reply, parseCourse);
    if r.GeneratedReply? && body.value.generateImages && |r.data.modules| > 0 {
      var mods := r.data.modules;
      var a := new GenModule[|mods|](i requires 0 <= i < |mods| => mods[i]);
      assert a[..] == mods;
      MergeImages(a, ImageResults(mods, imageUrl));
      r := GeneratedReply(r.data.(modules := a[..]));
    }
  }
}
