/**
 * What the two AI edge functions share: reading the model's reply, taking
 * the JSON object out of its text (the match of `/\{[\s\S]*\}/`), and
 * turning a refused call into the function's own error reply.
 */
module AiGateway {
  import opened Wrappers
  import opened Strings

  /**
   * How one call to the AI gateway ended: it threw, or it answered with an
   * HTTP status and a body. `content` is the body read as JSON and reduced
   * to the field the caller picks (the message text, or an image URL),
   * missing when the body has no such field.
   */
  datatype AiReply = AiThrew(message: string) | AiAnswered(ok: bool, status: int, content: Parse<Option<string>>)

  /** An error reply: its HTTP status and the `error` text. */
  datatype Failure = Failure(status: int, error: string)

  /** `content || ""`. */
  function ContentText(content: Option<string>): string
  {
    if content.Some? then content.value else ""
  }

  /** The position of the first `c` in `s`, or -1. */
  function FirstIndexOf(s: string, c: char): (r: int)
    ensures -1 <= r < |s|
    ensures r >= 0 ==> s[r] == c && forall k :: 0 <= k < r ==> s[k] != c
    ensures r == -1 ==> forall k :: 0 <= k < |s| ==> s[k] != c
    decreases |s|
  {
    if s == [] then -1
    else if s[0] == c then 0
    else
      var k := FirstIndexOf(s[1..], c);
      assert forall i :: 1 <= i < |s| ==> s[i] == s[1..][i - 1];
      if k == -1 then -1 else k + 1
  }

  /** The position of the last `c` in `s`, or -1. */
  function LastIndexOf(s: string, c: char): (r: int)
    ensures -1 <= r < |s|
    ensures r >= 0 ==> s[r] == c && forall k :: r < k < |s| ==> s[k] != c
    ensures r == -1 ==> forall k :: 0 <= k < |s| ==> s[k] != c
    decreases |s|
  {
    if s == [] then -1
    else if s[|s| - 1] == c then |s| - 1
    else
      var init := s[..|s| - 1];
      assert forall i :: 0 <= i < |init| ==> s[i] == init[i];
      LastIndexOf(init, c)
  }

  /**
   * `jsonMatch ? jsonMatch[0] : rawText` for `/\{[\s\S]*\}/`: the span from
   * the first "{" to the last "}", or the whole text when there is no "{"
   * with a "}" after it.
   */
  function ExtractJson(text: string): (r: string)
    ensures |r| <= |text|
    ensures r == text || (|r| >= 2 && r[0] == '{' && r[|r| - 1] == '}')
  {
    var i := FirstIndexOf(text, '{');
    var j := LastIndexOf(text, '}');
    if 0 <= i < j then text[i..j + 1] else text
  }

  /** With "{" first at `i` and "}" last at `j > i`, the extract is exactly `text[i..j+1]`. */
  lemma ExtractBetween(text: string, i: int, j: int)
    requires 0 <= i < j < |text| && text[i] == '{' && text[j] == '}'
    requires forall k :: 0 <= k < i ==> text[k] != '{'
    requires forall k :: j < k < |text| ==> text[k] != '}'
    ensures ExtractJson(text) == text[i..j + 1]
  {
  }

  /** Without a "{" followed somewhere by a "}", the text is parsed as it is. */
  lemma ExtractNoPair(text: string)
    requires forall i, j :: 0 <= i < j < |text| && text[i] == '{' ==> text[j] != '}'
    ensures ExtractJson(text) == text
  {
  }

  /** Text that already is one object is left as it is. */
  lemma ExtractWholeObject(body: string)
    requires forall k :: 0 <= k < |body| ==> body[k] != '{' && body[k] != '}'
    ensures ExtractJson("{" + body + "}") == "{" + body + "}"
  {
    var t := "{" + body + "}";
    forall k | 0 < k < |t|
      ensures t[k] != '{'
    {
      if k <= |body| { assert t[k] == body[k - 1]; }
    }
    ExtractBetween(t, 0, |t| - 1);
  }

  /**
   * A refused AI call: 429 and 402 keep their status with their own
   * message; any other status is thrown as `prefix + status` and answered 500.
   */
  function StatusFailure(status: int, prefix: string): (r: Failure)
    ensures status == 429 ==> r == Failure(429, "Trop de requêtes. Réessayez dans quelques instants.")
    ensures status == 402 ==> r == Failure(402, "Crédits IA épuisés.")
    ensures status != 429 && status != 402 ==> r == Failure(500, prefix + IntText(status))
    ensures r.status in {429, 402, 500}
  {
    if status == 429 then Failure(429, "Trop de requêtes. Réessayez dans quelques instants.")
    else if status == 402 then Failure(402, "Crédits IA épuisés.")
    else Failure(500, prefix + IntText(status))
  }

  /** The reply status keeps the gateway's 429 and 402 and folds everything else into 500. */
  lemma StatusFailureKeepsOnlyRateAndCredit(status: int, prefix: string)
    ensures StatusFailure(status, prefix).status == status <==> status == 429 || status == 402 || status == 500
  {
  }
}
