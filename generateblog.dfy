/**
 * The blog-generation edge function: one model call writes the article,
 * with a fixed fallback article when its text does not parse, and an
 * optional second call draws a cover image.
 */
module GenerateBlog {
  import opened Wrappers
  import opened Strings
  import opened AiGateway

  /** The article as parsed; fields the model leaves out are missing. */
  datatype Article = Article(title: Option<string>, slug: Option<string>, summary: Option<string>, content: Option<string>, tags: Option<seq<string>>)

  /** The request body. */
  datatype BlogRequest = BlogRequest(content: Option<string>, generateImage: bool)

  /** `{...article, image}`, or an error. */
  datatype BlogReply = ArticleReply(article: Article, image: Option<string>) | BlogFailure(failure: Failure)

  const DefaultTopic := "Intelligence Artificielle en Afrique"

  /** What the model is asked to write about: `content || "Intelligence Artificielle en Afrique"`. */
  function TopicOf(content: Option<string>): (r: string)
    ensures r != ""
    ensures Truthy(content) ==> r == content.value
    ensures !Truthy(content) ==> r == DefaultTopic
  {
    if Truthy(content) then content.value else DefaultTopic
  }

  /** The article used when the model's text does not parse: that text as content, under a fixed title. */
  function FallbackArticle(rawText: string, now: int): (r: Article)
    ensures r.title == Some("ARTICLE GÉNÉRÉ") && r.summary == Some("") && r.tags == Some([])
    ensures r.content == Some(rawText)
    ensures r.slug.Some? && StartsWith(r.slug.value, "article-genere-")
  {
    var slug := "article-genere-" + IntText(now);
    assert slug[..|"article-genere-"|] == "article-genere-";
    Article(Some("ARTICLE GÉNÉRÉ"), Some(slug), Some(""), Some(rawText), Some([]))
  }

  /** The article from the model's text: what it parses to, else the fallback. */
  function ArticleFrom(rawText: string, parse: string -> Parse<Article>, now: int): (r: Article)
    ensures parse(ExtractJson(rawText)).Parsed? ==> r == parse(ExtractJson(rawText)).value
    ensures parse(ExtractJson(rawText)).ParseError? ==> r == FallbackArticle(rawText, now)
  {
    var parsed := parse(ExtractJson(rawText));
    if parsed.Parsed? then parsed.value else FallbackArticle(rawText, now)
  }

  /**
   * The `image` field: a truthy URL from an accepted image call when an
   * image was asked for, else null. A failed or throwing image call never
   * fails the request.
   */
  function ImageOf(generateImage: bool, imageReply: AiReply): (r: Option<string>)
    ensures r.Some? ==> Truthy(r)
    ensures r.Some? <==> generateImage && imageReply.AiAnswered? && imageReply.ok
                         && imageReply.content.Parsed? && Truthy(imageReply.content.value)
    ensures r.Some? ==> r == imageReply.content.value
  {
    if generateImage && imageReply.AiAnswered? && imageReply.ok && imageReply.content.Parsed? && Truthy(imageReply.content.value)
    then imageReply.content.value
    else None
  }

  /**
   * The handler. `reply` answers the article call, `parse` stands for
   * `JSON.parse`, `now` for `Date.now()`, and `imageReply` answers the image
   * call, whose `content` is the image URL. `topic` is what the article call
   * asks for, when it is made.
   */
  method HandleGenerateBlog(body: Parse<BlogRequest>, apiKey: Option<string>, reply: AiReply,
                            parse: string -> Parse<Article>, now: int, imageReply: AiReply)
    returns (r: BlogReply, topic: Option<string>)
    ensures body.ParseError? ==> r == BlogFailure(Failure(500, body.message)) && topic.None?
    ensures body.Parsed? && !Truthy(apiKey) ==> r == BlogFailure(Failure(500, "LOVABLE_API_KEY not configured")) && topic.None?
    ensures body.Parsed? && Truthy(apiKey) ==> topic == Some(TopicOf(body.value.content))
    ensures body.Parsed? && Truthy(apiKey) && reply.AiThrew? ==> r == BlogFailure(Failure(500, reply.message))
    ensures body.Parsed? && Truthy(apiKey) && reply.AiAnswered? && !reply.ok ==>
      r == BlogFailure(StatusFailure(reply.status, "AI gateway error: "))
    ensures body.Parsed? && Truthy(apiKey) && reply.AiAnswered? && reply.ok && reply.content.ParseError? ==>
      r == BlogFailure(Failure(500, reply.content.message))
    ensures body.Parsed? && Truthy(apiKey) && reply.AiAnswered? && reply.ok && reply.content.Parsed? ==>
      r == ArticleReply(ArticleFrom(ContentText(reply.content.value), parse, now), ImageOf(body.value.generateImage, imageReply))
  {
    topic := None;
    if body.ParseError? {
      return BlogFailure(Failure(500, body.message)), None;
    }
    if !Truthy(apiKey) {
      return BlogFailure(Failure(500, "LOVABLE_API_KEY not configured")), None;
    }
    topic := Some(TopicOf(body.value.content));
    if reply.AiThrew? {
      return BlogFailure(Failure(500, reply.message)), topic;
    }
    if !reply.ok {
      return BlogFailure(StatusFailure(reply.status, "AI gateway error: ")), topic;
    }
    if reply.content.ParseError? {
      return BlogFailure(Failure(500, reply.content.message)), topic;
    }
    var rawText := ContentText(reply.content.value);
    var article: Article;
    var parsed := parse(ExtractJson(rawText));
    if parsed.Parsed? {
      article := parsed.value;
    } else {
      article := FallbackArticle(rawText, now);
    }
    var image: Option<string> := None;
    if body.value.generateImage {
      if imageReply.AiAnswered? && imageReply.ok && imageReply.content.Parsed? {
        image := if Truthy(imageReply.content.value) then imageReply.content.value else None;
      }
    }
    r := ArticleReply(article, image);
  }
}
