/** The page's `generateDescription`: it posts the three fields to the route
    and shows the `html` of an ok answer, trimmed; any failure (a status that
    is not ok, a fetch or JSON error) shows the local fallback built by
    `buildDummyHtml` from the title and the raw text instead. */
module HomePage {
  import opened Strings
  import opened FallbackRenderer
  import opened PromptTemplate
  import opened GenerateRoute

  /** What the page gets back from `fetch`: nothing usable (the request or the
      JSON parse threw), or a status with the `html` field if it holds a string. */
  datatype Reply = Failed | Answered(status: int, html: Option<string>)

  /** `res.ok`: a status in the 2xx range. */
  predicate IsOk(status: int) {
    200 <= status < 300
  }

  /** The text the page puts in its result: the reply's `html` (empty when
      absent), trimmed, after an ok reply, and otherwise `fallback`, the
      fallback page for the title and the raw text. */
  function Shown(fallback: string, reply: Reply): (result: string)
    ensures reply.Answered? && IsOk(reply.status) ==> result == Trim(reply.html.GetOr([]))
    ensures !(reply.Answered? && IsOk(reply.status)) ==> result == fallback
  {
    match reply
    case Failed => fallback
    case Answered(status, html) => if IsOk(status) then Trim(html.GetOr([])) else fallback
  }

  /** The route's response as the page reads it: its status, and its `html`
      field when the payload has one. */
  function Received(r: Response): (reply: Reply)
    ensures reply.Answered? && reply.status == r.status
    ensures r.payload.Html? <==> reply.html.Some?
  {
    Answered(r.status, if r.payload.Html? then Some(r.payload.html) else None)
  }

  /** One click of the Generate button against the route: the page always
      sends all three fields as strings. */
  function Generate(title: string, info: string, brand: string, key: Option<string>,
                    upstream: Call -> Upstream): string
  {
    var x := Post(Fields(Some(title), Some(info), Some(brand)), key, upstream);
    Shown(BuildDummyHtml(title, info), Received(x.response))
  }

  /** The page shows what it shows: always trimmed text, the fallback being
      trimmed itself. */
  lemma GenerateTrimmed(title: string, info: string, brand: string, key: Option<string>,
                        upstream: Call -> Upstream)
    ensures Trimmed(Generate(title, info, brand, key, upstream))
  {
    var x := Post(Fields(Some(title), Some(info), Some(brand)), key, upstream);
    ShownTrimmed(BuildDummyHtml(title, info), Received(x.response));
  }

  lemma ShownTrimmed(fallback: string, reply: Reply)
    requires Trimmed(fallback)
    ensures Trimmed(Shown(fallback, reply))
  {
  }

  /** End to end: the page shows the route's cleaned answer exactly when
      OpenRouter was called and answered ok, and the fallback in every other
      case (a missing field, a missing key, an upstream error or a throw). */
  lemma GenerateOutcome(title: string, info: string, brand: string, key: Option<string>,
                        upstream: Call -> Upstream)
    ensures
      var x := Post(Fields(Some(title), Some(info), Some(brand)), key, upstream);
      Generate(title, info, brand, key, upstream) ==
        if x.sent.Some? && upstream(x.sent.value).Ok?
        then StripFence(upstream(x.sent.value).content.GetOr([]))
        else BuildDummyHtml(title, info)
  {
    Outcome(BasePrompt, BuildDummyHtml(title, info), Fields(Some(title), Some(info), Some(brand)), key, upstream);
  }

  /** The same for any template and any fallback text. */
  lemma Outcome(template: string, fallback: string, body: RequestBody, key: Option<string>,
                upstream: Call -> Upstream)
    ensures
      var x := Handle(template, body, key, upstream);
      Shown(fallback, Received(x.response)) ==
        if x.sent.Some? && upstream(x.sent.value).Ok?
        then StripFence(upstream(x.sent.value).content.GetOr([]))
        else fallback
  {
    var x := Handle(template, body, key, upstream);
    if x.sent.Some? && upstream(x.sent.value).Ok? {
      TrimOfTrimmed(StripFence(upstream(x.sent.value).content.GetOr([])));
    }
  }

  /** A blank field never reaches OpenRouter: the page shows the fallback. */
  lemma BlankFieldFallsBack(title: string, info: string, brand: string, key: Option<string>,
                            upstream: Call -> Upstream)
    requires title == [] || info == [] || brand == []
    ensures Generate(title, info, brand, key, upstream) == BuildDummyHtml(title, info)
  {
    Outcome(BasePrompt, BuildDummyHtml(title, info), Fields(Some(title), Some(info), Some(brand)), key, upstream);
  }

  /** An ok answer without content shows an empty result, not the fallback. */
  lemma EmptyAnswerShownEmpty(title: string, info: string, brand: string, key: string,
                              upstream: Call -> Upstream)
    requires Complete(title, info, brand) && key != []
    requires forall c :: upstream(c) == Ok(None)
    ensures Generate(title, info, brand, Some(key), upstream) == []
  {
    Outcome(BasePrompt, BuildDummyHtml(title, info), Fields(Some(title), Some(info), Some(brand)), Some(key), upstream);
    TrimBlank([]);
  }
}
