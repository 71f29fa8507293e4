/**
 * The serverless handler `api/ask.ts`: request validation, its own retrieval
 * rule over the knowledge base, and the context block handed to the
 * generative model. The model call itself is the parameter `generate`.
 */
module Ask {
  import opened Wrappers
  import opened Text
  import opened KnowledgeBase

  /**
   * The parsed JSON body. A missing `question` or `module` reads as `""`:
   * the handler only tests them for truthiness.
   */
  datatype RequestBody = RequestBody(question: string, moduleName: string)

  /** An HTTP request; `body` is `None` when it is not valid JSON (`req.json()` throws). */
  datatype Request = Request(httpMethod: string, body: Option<RequestBody>)

  datatype Payload = Answer(text: string) | Error(message: string)

  datatype Response = Response(status: int, payload: Payload)

  /** `tags.some(tag => lq.includes(tag.toLowerCase()))`. */
  function AnyTagIn(tags: seq<string>, lq: string): (r: bool)
    ensures r <==> exists i :: 0 <= i < |tags| && Contains(lq, LowerStr(tags[i]))
  {
    if tags == [] then false
    else Contains(lq, LowerStr(tags[0])) || AnyTagIn(tags[1..], lq)
  }

  /**
   * The filter of `relevantArticles`: a non-empty module equal to the
   * article's (case-sensitive), or some lower-cased tag inside the lower-cased
   * question, or the lower-cased question inside the lower-cased title.
   * Status is not consulted.
   */
  function IsRelevant(a: Article, question: string, moduleName: string): (r: bool)
    ensures r <==>
      || (moduleName != "" && a.moduleName == moduleName)
      || (exists i :: 0 <= i < |a.tags| && Contains(LowerStr(question), LowerStr(a.tags[i])))
      || Contains(LowerStr(a.title), LowerStr(question))
  {
    (moduleName != "" && a.moduleName == moduleName)
    || AnyTagIn(a.tags, LowerStr(question))
    || Contains(LowerStr(a.title), LowerStr(question))
  }

  /** `knowledgeBase.filter(...)`: the relevant articles, in collection order. */
  function RelevantArticles(kb: seq<Article>, question: string, moduleName: string): (r: seq<Article>)
    ensures |r| <= |kb|
    ensures forall x :: x in r ==> x in kb && IsRelevant(x, question, moduleName)
  {
    if kb == [] then []
    else
      RelevantArticles(kb[..|kb| - 1], question, moduleName)
      + (if IsRelevant(kb[|kb| - 1], question, moduleName) then [kb[|kb| - 1]] else [])
  }

  /** Every relevant article of the collection is selected, and nothing else. */
  lemma {:induction false} RelevantArticlesMembers(kb: seq<Article>, question: string, moduleName: string, x: Article)
    ensures x in RelevantArticles(kb, question, moduleName) <==> x in kb && IsRelevant(x, question, moduleName)
    decreases |kb|
  {
    if kb != [] {
      var init := kb[..|kb| - 1];
      RelevantArticlesMembers(init, question, moduleName, x);
      assert kb == init + [kb[|kb| - 1]];
    }
  }

  /** Filtering keeps collection order: it distributes over concatenation. */
  lemma {:induction false} RelevantArticlesAppend(a: seq<Article>, b: seq<Article>, question: string, moduleName: string)
    ensures RelevantArticles(a + b, question, moduleName)
      == RelevantArticles(a, question, moduleName) + RelevantArticles(b, question, moduleName)
    decreases |b|
  {
    if b == [] {
      assert a + b == a;
    } else {
      var init, last := b[..|b| - 1], b[|b| - 1];
      var tail := if IsRelevant(last, question, moduleName) then [last] else [];
      assert (a + b)[..|a + b| - 1] == a + init && (a + b)[|a + b| - 1] == last;
      assert RelevantArticles(a + b, question, moduleName) == RelevantArticles(a + init, question, moduleName) + tail;
      assert RelevantArticles(b, question, moduleName) == RelevantArticles(init, question, moduleName) + tail;
      RelevantArticlesAppend(a, init, question, moduleName);
    }
  }

  /** `Title: <title>\nDescription: <description>`. */
  function Block(a: Article): (r: string)
    ensures StartsWith(r, "Title: ")
  {
    "Title: " + a.title + "\nDescription: " + a.description
  }

  function Blocks(articles: seq<Article>): (r: seq<string>)
    ensures |r| == |articles|
    ensures forall i :: 0 <= i < |articles| ==> r[i] == Block(articles[i])
  {
    if articles == [] then [] else [Block(articles[0])] + Blocks(articles[1..])
  }

  /** The blocks of the articles joined by `\n---\n`; empty exactly when there are no articles. */
  function Context(articles: seq<Article>): (r: string)
    ensures r == [] <==> articles == []
  {
    var blocks := Blocks(articles);
    assert blocks != [] ==> TotalLength(blocks) >= |blocks[0]| > 0;
    Join(blocks, "\n---\n")
  }

  /** The context of one article is its block; each further article adds the delimiter and its block. */
  lemma ContextSnoc(articles: seq<Article>, a: Article)
    ensures Context([a]) == Block(a)
    ensures articles != [] ==> Context(articles + [a]) == Context(articles) + "\n---\n" + Block(a)
  {
    if articles != [] {
      assert Blocks(articles + [a]) == Blocks(articles) + [Block(a)];
      JoinSnoc(Blocks(articles), Block(a), "\n---\n");
    }
  }

  const MethodNotAllowed := "Method not allowed"
  const QuestionRequired := "Question is required"
  const ModelFailed := "Failed to get a response from the AI."

  /**
   * The handler: 405 for any method but POST, 500 when the body does not
   * parse, 400 for a falsy question, otherwise the answer the model gives for
   * the context built from the relevant articles (500 when the model fails).
   */
  function Handle(req: Request, kb: seq<Article>, generate: (string, string) -> Option<string>): (resp: Response)
    ensures resp.status == 405 <==> req.httpMethod != "POST"
    ensures resp.status == 400 <==> req.httpMethod == "POST" && req.body.Some? && req.body.value.question == ""
    ensures resp.status == 200 <==>
      && req.httpMethod == "POST" && req.body.Some? && req.body.value.question != ""
      && generate(Context(RelevantArticles(kb, req.body.value.question, req.body.value.moduleName)),
                  req.body.value.question).Some?
    ensures resp.status == 200 ==> resp.payload == Answer(generate(
      Context(RelevantArticles(kb, req.body.value.question, req.body.value.moduleName)), req.body.value.question).value)
    ensures resp.status != 200 ==> resp.payload.Error?
    ensures resp.status in {200, 400, 405, 500}
  {
    if req.httpMethod != "POST" then Response(405, Error(MethodNotAllowed))
    else if req.body.None? then Response(500, Error(ModelFailed))
    else
      var question, moduleName := req.body.value.question, req.body.value.moduleName;
      if question == "" then Response(400, Error(QuestionRequired))
      else
        var context := Context(RelevantArticles(kb, question, moduleName));
        match generate(context, question)
        case Some(text) => Response(200, Answer(text))
        case None => Response(500, Error(ModelFailed))
  }

  /** A rejected request (405 or 400) never reaches retrieval: neither the collection nor the model matters. */
  lemma RejectionSkipsRetrieval(req: Request, kb1: seq<Article>, kb2: seq<Article>,
                                g1: (string, string) -> Option<string>, g2: (string, string) -> Option<string>)
    requires Handle(req, kb1, g1).status in {400, 405}
    ensures Handle(req, kb1, g1) == Handle(req, kb2, g2)
  {
  }
}
