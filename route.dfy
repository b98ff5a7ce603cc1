/** The API route `POST /api/generate`: it checks the three request fields,
    fills the prompt template, checks for the OpenRouter key, calls the
    chat-completion endpoint once and turns its answer, or any failure, into a
    JSON response. The endpoint, the request body parser and the environment
    are inputs here; the handler itself is one total function of them. */
module GenerateRoute {
  import opened Strings
  import opened PromptTemplate

  // ---------------------------------------------------------------------------
  // Filling the template

  /** The three chained `replace` calls on a template: first `{title}`, then
      `{raw_info}`, then `{brand}`, each time the first occurrence in the text
      so far. */
  function Fill(template: string, title: string, rawInfo: string, brand: string): string {
    ReplaceFirst(ReplaceFirst(ReplaceFirst(template, TitleSlot, title), RawInfoSlot, rawInfo), BrandSlot, brand)
  }

  /** `filledPrompt`: the route's own template, filled. */
  function FillPrompt(title: string, rawInfo: string, brand: string): string {
    Fill(BasePrompt, title, rawInfo, brand)
  }

  /** When neither of the first two values contains a `{` and no value contains
      a `$`, each value lands on the line of its own label and the rest of the
      template is untouched. */
  lemma PromptFilled(title: string, rawInfo: string, brand: string)
    requires '{' !in title && '{' !in rawInfo
    requires '$' !in title && '$' !in rawInfo && '$' !in brand
    ensures FillPrompt(title, rawInfo, brand)
         == PromptHead + title + RawInfoLabel + rawInfo + BrandLabel + brand + PromptTail
  {
    HeadHasNoBrace();
    assert '{' !in RawInfoLabel && '{' !in BrandLabel;
    SlotsFilled(PromptHead, RawInfoLabel, BrandLabel, PromptTail, title, rawInfo, brand);
  }

  /** A placeholder carried in by an earlier value is the one a later `replace`
      finds: a title of `{brand}` receives the brand, and the `Brand:` line keeps
      its placeholder. */
  lemma BrandCapturedByTitle(rawInfo: string, brand: string)
    requires '{' !in rawInfo && '$' !in rawInfo && '$' !in brand
    ensures FillPrompt(BrandSlot, rawInfo, brand)
         == PromptHead + brand + RawInfoLabel + rawInfo + BrandLabel + BrandSlot + PromptTail
  {
    HeadHasNoBrace();
    assert '{' !in RawInfoLabel && '{' !in BrandLabel;
    SlotCaptured(PromptHead, RawInfoLabel, BrandLabel, PromptTail, rawInfo, brand);
  }

  /** Any template of the route's shape: three placeholders in order, with no
      brace between them other than their own. */
  lemma SlotsFilled(h: string, l2: string, l3: string, tl: string,
                    title: string, rawInfo: string, brand: string)
    requires '{' !in h && '{' !in l2 && '{' !in l3 && '{' !in title && '{' !in rawInfo
    requires '$' !in title && '$' !in rawInfo && '$' !in brand
    ensures Fill(h + TitleSlot + l2 + RawInfoSlot + l3 + BrandSlot + tl, title, rawInfo, brand)
         == h + title + l2 + rawInfo + l3 + brand + tl
  {
    var r1 := l2 + RawInfoSlot + l3 + BrandSlot + tl;
    Regroup5(h, TitleSlot, l2, RawInfoSlot, l3, BrandSlot, tl);
    ReplaceAt(h, TitleSlot, r1, title);
    var x, r2 := h + title + l2, l3 + BrandSlot + tl;
    RegroupSecond(h + title, l2, RawInfoSlot, l3, BrandSlot, tl);
    NoBrace3(h, title, l2);
    ReplaceAt(x, RawInfoSlot, r2, rawInfo);
    RegroupThird(x, rawInfo, l3, BrandSlot, tl);
    NoBrace3(x, rawInfo, l3);
    ReplaceAt(x + rawInfo + l3, BrandSlot, tl, brand);
  }

  /** The same template with `{brand}` as the title. */
  lemma SlotCaptured(h: string, l2: string, l3: string, tl: string, rawInfo: string, brand: string)
    requires '{' !in h && '{' !in l2 && '{' !in rawInfo
    requires '$' !in rawInfo && '$' !in brand
    ensures Fill(h + TitleSlot + l2 + RawInfoSlot + l3 + BrandSlot + tl, BrandSlot, rawInfo, brand)
         == h + brand + l2 + rawInfo + l3 + BrandSlot + tl
  {
    var r1 := l2 + RawInfoSlot + l3 + BrandSlot + tl;
    Regroup5(h, TitleSlot, l2, RawInfoSlot, l3, BrandSlot, tl);
    ReplaceAt(h, TitleSlot, r1, BrandSlot);
    var r2 := l3 + BrandSlot + tl;
    assert r1 == l2 + RawInfoSlot + r2;
    SkipOtherSlot(h, l2, r2, rawInfo);
    var r3 := l2 + rawInfo + r2;
    ReplaceAt(h, BrandSlot, r3, brand);
    RegroupLast(h, brand, l2, rawInfo, l3, BrandSlot, tl);
  }

  /** Replacing `{raw_info}` after a `{brand}` placeholder: the earlier brace
      starts a different placeholder, so the search goes on past it. */
  lemma SkipOtherSlot(h: string, mid: string, rest: string, rawInfo: string)
    requires '{' !in h && '{' !in mid && '$' !in rawInfo
    ensures ReplaceFirst(h + BrandSlot + (mid + RawInfoSlot + rest), RawInfoSlot, rawInfo)
         == h + BrandSlot + (mid + rawInfo + rest)
  {
    var a := h + BrandSlot + mid;
    var s := h + BrandSlot + (mid + RawInfoSlot + rest);
    assert s == a + RawInfoSlot + rest;
    assert OccursAt(s, RawInfoSlot, |a|) by {
      assert s[|a|..|a| + |RawInfoSlot|] == RawInfoSlot;
    }
    forall j: nat | j < |a| ensures !OccursAt(s, RawInfoSlot, j) {
      NotRawInfoAt(h, mid, a, s, j);
    }
    FindFirst(s, RawInfoSlot, |a|);
    assert s[..|a|] == a && s[|a| + |RawInfoSlot|..] == rest;
  }

  /** Before the `{raw_info}` placeholder, the only brace opens `{brand}`,
      whose second letter is not that of `{raw_info}`. */
  lemma NotRawInfoAt(h: string, mid: string, a: string, s: string, j: nat)
    requires '{' !in h && '{' !in mid
    requires a == h + BrandSlot + mid && |a| < |s| && s[..|a|] == a && j < |a|
    ensures !OccursAt(s, RawInfoSlot, j)
  {
    if j + |RawInfoSlot| <= |s| {
      if j == |h| {
        assert s[j + 1] == a[j + 1] == 'b';
        assert s[j..j + |RawInfoSlot|][1] == s[j + 1];
      } else {
        assert s[j] == a[j];
        BraceOnlyAtSlot(h, mid, j);
        assert s[j..j + |RawInfoSlot|][0] == s[j];
      }
    }
  }

  lemma BraceOnlyAtSlot(h: string, mid: string, j: nat)
    requires '{' !in h && '{' !in mid && j < |h + BrandSlot + mid| && j != |h|
    ensures (h + BrandSlot + mid)[j] != '{'
  {
    var a := h + BrandSlot + mid;
    if j < |h| {
      assert a[j] == h[j];
    } else if j < |h| + |BrandSlot| {
      assert a[j] == BrandSlot[j - |h|];
    } else {
      assert a[j] == mid[j - |h| - |BrandSlot|];
    }
  }

  /** Brings the text after the `{title}` slot into one group, the shape `ReplaceAt` takes. */
  lemma Regroup5(h: string, p1: string, l2: string, p2: string, l3: string, p3: string, t: string)
    ensures h + p1 + l2 + p2 + l3 + p3 + t == h + p1 + (l2 + p2 + l3 + p3 + t)
  {
  }

  /** Regroups around the `{raw_info}` slot for the second `replace`. */
  lemma RegroupSecond(x: string, l2: string, p2: string, l3: string, p3: string, t: string)
    ensures x + (l2 + p2 + l3 + p3 + t) == (x + l2) + p2 + (l3 + p3 + t)
  {
  }

  /** Regroups around the `{brand}` slot for the third `replace`. */
  lemma RegroupThird(x: string, v: string, l3: string, p3: string, t: string)
    ensures x + v + (l3 + p3 + t) == (x + v + l3) + p3 + t
  {
  }

  /** Flattens the grouping left by the replacements back to the template's order. */
  lemma RegroupLast(h: string, b: string, l2: string, v: string, l3: string, p3: string, t: string)
    ensures h + b + (l2 + v + (l3 + p3 + t)) == h + b + l2 + v + l3 + p3 + t
  {
  }

  // ---------------------------------------------------------------------------
  // Post-processing the model's answer

  const Fence := "```"

  predicate StartsWith(s: string, p: string) {
    |p| <= |s| && s[..|p|] == p
  }

  predicate EndsWith(s: string, p: string) {
    |p| <= |s| && s[|s| - |p|..] == p
  }

  /** `html` in any mix of ASCII upper and lower case, as the `i` flag matches it. */
  predicate IsHtmlTag(s: string) {
    && |s| == 4
    && (s[0] == 'h' || s[0] == 'H') && (s[1] == 't' || s[1] == 'T')
    && (s[2] == 'm' || s[2] == 'M') && (s[3] == 'l' || s[3] == 'L')
  }

  /** On text that starts with a fence: the fence goes, and so does an `html`
      tag right after it. */
  function DropOpening(s: string): (r: string)
    requires StartsWith(s, Fence)
    ensures |s| >= 7 && IsHtmlTag(s[3..7]) ==> r == s[7..]
    ensures !(|s| >= 7 && IsHtmlTag(s[3..7])) ==> r == s[3..]
  {
    var rest := s[3..];
    assert |rest| >= 4 ==> rest[..4] == s[3..7];
    if |rest| >= 4 && IsHtmlTag(rest[..4]) then rest[4..] else rest
  }

  /** A fence at the very end of the text goes. */
  function DropClosing(s: string): (r: string)
    ensures EndsWith(s, Fence) ==> s == r + Fence
    ensures !EndsWith(s, Fence) ==> r == s
  {
    if EndsWith(s, Fence) then s[..|s| - 3] else s
  }

  /** The answer trimmed and, when it opens with a code fence, without that
      fence (and its tag) and without a closing fence at its end, trimmed
      again. */
  function StripFence(content: string): (html: string)
    ensures Trimmed(html)
    ensures !StartsWith(Trim(content), Fence) ==> html == Trim(content)
  {
    var t := Trim(content);
    if StartsWith(t, Fence) then Trim(DropClosing(DropOpening(t))) else t
  }

  /** What may follow an opening fence: an `html` tag in any case, or no tag
      and a body that does not itself begin with letters the tag pattern
      would take. */
  predicate TagFits(tag: string, body: string) {
    if tag == [] then !(|body| >= 4 && IsHtmlTag(body[..4])) else IsHtmlTag(tag)
  }

  /** Fencing is undone: a body wrapped in an opening fence (bare or tagged
      `html` in any case) and a closing fence, with any whitespace around the
      whole, comes back as the trimmed body. */
  lemma StripFenced(pre: string, tag: string, body: string, post: string)
    requires AllWs(pre) && AllWs(post) && TagFits(tag, body)
    ensures StripFence(pre + (Fence + tag + body + Fence) + post) == Trim(body)
  {
    var f := Fence + tag + body + Fence;
    FenceTrimmed(tag, body);
    TrimOfTrimmed(f);
    TrimPadded(pre, f, post);
    assert Trim(pre + f + post) == f;
    if tag == [] {
      NoTagBeforeFence(body);
    }
    OpeningDropped(tag, body + Fence);
    assert f == Fence + tag + (body + Fence);
    ClosingDropped(body);
    assert StripFence(pre + f + post) == Trim(DropClosing(DropOpening(f)));
  }

  /** A fenced text starts and ends with a backtick, so trimming keeps it. */
  lemma FenceTrimmed(tag: string, body: string)
    ensures Trimmed(Fence + tag + body + Fence)
  {
    var f := Fence + tag + body + Fence;
    assert f[0] == '`' && f[|f| - 1] == '`';
  }

  /** The opening fence goes with its tag, and only with it: whatever follows
      (`rest`) is kept whole. A closing fence right after a short body cannot
      be read as a tag, since a backtick is not a letter of `html`. */
  lemma OpeningDropped(tag: string, rest: string)
    requires tag == [] || IsHtmlTag(tag)
    requires tag == [] ==> !(|rest| >= 4 && IsHtmlTag(rest[..4]))
    ensures StartsWith(Fence + tag + rest, Fence)
    ensures DropOpening(Fence + tag + rest) == rest
  {
    var f := Fence + tag + rest;
    assert f[..3] == Fence;
    assert f[3..] == tag + rest;
    if tag != [] {
      assert f[3..7] == tag;
      assert f[7..] == rest;
    } else if |f| >= 7 {
      assert f[3..7] == rest[..4];
    }
  }

  /** No prefix of `body` followed by a fence reads as a tag when `body`
      itself does not begin with one. */
  lemma NoTagBeforeFence(body: string)
    requires !(|body| >= 4 && IsHtmlTag(body[..4]))
    ensures !(|body + Fence| >= 4 && IsHtmlTag((body + Fence)[..4]))
  {
    var r := body + Fence;
    if |body| >= 4 {
      assert r[..4] == body[..4];
    } else {
      assert r[|body|] == '`';
    }
  }

  /** A closing fence at the end goes. */
  lemma ClosingDropped(body: string)
    ensures DropClosing(body + Fence) == body
  {
    assert (body + Fence)[|body + Fence| - 3..] == Fence;
    assert (body + Fence)[..|body|] == body;
  }

  /** Without a closing fence only the opening one and its tag go. */
  lemma StripOpenOnly(tag: string, body: string)
    requires TagFits(tag, body) && Trimmed(body) && !EndsWith(body, Fence)
    ensures StripFence(Fence + tag + body) == body
  {
    var f := Fence + tag + body;
    assert f[0] == '`';
    assert f[|f| - 1] == if body != [] then body[|body| - 1] else if tag != [] then tag[3] else '`';
    TrimOfTrimmed(f);
    OpeningDropped(tag, body);
    TrimOfTrimmed(body);
  }

  /** A bare fence around trimmed text that does not begin with `html` comes
      off whole. */
  lemma StripBareFence(w: string)
    requires Trimmed(w) && TagFits([], w)
    ensures StripFence(Fence + w + Fence) == w
  {
    var f := Fence + w + Fence;
    assert f[0] == '`' && f[|f| - 1] == '`';
    TrimOfTrimmed(f);
    NoTagBeforeFence(w);
    OpeningDropped([], w + Fence);
    assert Fence + [] + (w + Fence) == f;
    ClosingDropped(w);
    TrimOfTrimmed(w);
  }

  /** A word that starts with `h` but is not `html` is not taken for a tag. */
  lemma StripBareFenceExample()
    ensures StripFence(Fence + "hello" + Fence) == "hello"
  {
    var w := "hello";
    assert w[..4][3] == 'l';
    assert w[0] == 'h' && w[4] == 'o';
    StripBareFence(w);
  }

  /** The usual shape of a fenced answer. */
  lemma StripFenceExample()
    ensures StripFence(Fence + "html" + ("\n" + "<p>X</p>" + "\n") + Fence) == "<p>X</p>"
  {
    assert IsHtmlTag("html");
    StripFenced([], "html", "\n" + "<p>X</p>" + "\n", []);
    assert [] + (Fence + "html" + ("\n" + "<p>X</p>" + "\n") + Fence) + []
        == Fence + "html" + ("\n" + "<p>X</p>" + "\n") + Fence;
    assert AllWs("\n");
    TrimPadded("\n", "<p>X</p>", "\n");
    TrimOfTrimmed("<p>X</p>");
  }

  // ---------------------------------------------------------------------------
  // The handler

  /** A value a `try` block can throw: an `Error` with its message, or
      anything else. */
  datatype Thrown = ErrorValue(message: string) | OtherValue

  /** What `await req.json()` yields: the three fields (each possibly absent),
      or a failure to read the body. */
  datatype RequestBody =
    | Unreadable(reason: Thrown)
    | Fields(title: Option<string>, rawInfo: Option<string>, brand: Option<string>)

  /** How the call to OpenRouter ends: it throws (network failure, unreadable
      JSON), answers with a status that is not ok and a body text, or answers
      ok with JSON that holds `choices[0].message.content` or not. */
  datatype Upstream = Threw(reason: Thrown) | NotOk(text: string) | Ok(content: Option<string>)

  datatype Message = Message(role: string, content: string)

  /** The request the handler sends. */
  datatype Call = Call(
    url: string, authorization: string, contentType: string, referer: string, appTitle: string,
    model: string, messages: seq<Message>, temperature: real)

  datatype Payload = Html(html: string) | Failure(error: string, detail: Option<string>)

  datatype Response = Response(status: int, payload: Payload)

  /** The response, and the call to OpenRouter if one was made. */
  datatype Exchange = Exchange(response: Response, sent: Option<Call>)

  const SystemPrompt := "You are an expert e-commerce copywriter producing clean HTML only."

  /** The chat-completion request for a key and a filled prompt. */
  function Completion(key: string, prompt: string): Call {
    Call("https://openrouter.ai/api/v1/chat/completions", "Bearer " + key, "application/json",
         "http://localhost", "Description Generator", "openai/gpt-4o-mini",
         [Message("system", SystemPrompt), Message("user", prompt)], 0.7)
  }

  /** The `catch` block. */
  function ServerError(e: Thrown): (r: Response)
    ensures r.status == 500 && r.payload.Failure? && r.payload.error == "Server error"
    ensures r.payload.detail == Some(if e.ErrorValue? then e.message else "Unknown error")
  {
    Response(500, Failure("Server error", Some(match e case ErrorValue(m) => m case OtherValue => "Unknown error")))
  }

  /** An absent field reads as empty. */
  function Field(f: Option<string>): string {
    f.GetOr([])
  }

  /** All three fields are non-empty. */
  predicate Complete(title: string, rawInfo: string, brand: string) {
    title != [] && rawInfo != [] && brand != []
  }

  /** The response once OpenRouter has been called. */
  function Answer(u: Upstream): (r: Response)
    ensures r.status in {200, 500, 502}
    ensures r.status == 200 <==> u.Ok?
    ensures u.Ok? ==> r == Response(200, Html(StripFence(u.content.GetOr([]))))
    ensures u.NotOk? ==> r == Response(502, Failure("OpenRouter error", Some(u.text)))
    ensures u.Threw? ==> r == ServerError(u.reason)
  {
    match u
    case Threw(e) => ServerError(e)
    case NotOk(text) => Response(502, Failure("OpenRouter error", Some(text)))
    case Ok(content) => Response(200, Html(StripFence(content.GetOr([]))))
  }

  /** `POST(req)`, with the request body, the `OPENROUTER_KEY` environment
      variable and OpenRouter's behaviour as inputs. */
  function Post(body: RequestBody, key: Option<string>, upstream: Call -> Upstream): Exchange {
    Handle(BasePrompt, body, key, upstream)
  }

  /** The handler for a given prompt template; the route's own is
      `BasePrompt`. Everything it promises holds whatever the template. */
  function Handle(template: string, body: RequestBody, key: Option<string>, upstream: Call -> Upstream): (x: Exchange)
    ensures x.response.status in {200, 400, 500, 502}
    ensures x.response.status == 200 <==> x.response.payload.Html?
    ensures x.response.payload.Html? ==> Trimmed(x.response.payload.html)
    ensures x.sent.Some? <==>
      body.Fields? && Complete(Field(body.title), Field(body.rawInfo), Field(body.brand))
      && key.Some? && key.value != []
    ensures x.sent.None? ==> x.response.payload.Failure?
    ensures body.Unreadable? ==> x == Exchange(ServerError(body.reason), None)
    ensures x.sent.Some? ==>
      x.sent.value == Completion(key.value, Fill(template, Field(body.title), Field(body.rawInfo), Field(body.brand)))
      && x.response == Answer(upstream(x.sent.value))
  {
    match body
    case Unreadable(e) => Exchange(ServerError(e), None)
    case Fields(t, r, b) =>
      var title, rawInfo, brand := Field(t), Field(r), Field(b);
      if !Complete(title, rawInfo, brand) then
        Exchange(Response(400, Failure("Missing fields", None)), None)
      else
        var prompt := Fill(template, title, rawInfo, brand);
        if key.None? || key.value == [] then
          Exchange(Response(500, Failure("Missing OPENROUTER_KEY", None)), None)
        else
          var call := Completion(key.value, prompt);
          Exchange(Answer(upstream(call)), Some(call))
  }

  /** A missing field is answered with 400 before the key is looked at and
      before anything is sent, whatever the key and OpenRouter would do. */
  lemma MissingFields(body: RequestBody, key: Option<string>, upstream: Call -> Upstream)
    requires body.Fields? && !Complete(Field(body.title), Field(body.rawInfo), Field(body.brand))
    ensures Post(body, key, upstream) == Exchange(Response(400, Failure("Missing fields", None)), None)
  {
  }

  /** Complete fields without a key are answered with 500 and nothing is sent. */
  lemma MissingKey(title: string, rawInfo: string, brand: string, key: Option<string>, upstream: Call -> Upstream)
    requires Complete(title, rawInfo, brand) && (key.None? || key.value == [])
    ensures Post(Fields(Some(title), Some(rawInfo), Some(brand)), key, upstream)
         == Exchange(Response(500, Failure("Missing OPENROUTER_KEY", None)), None)
  {
  }

  /** What OpenRouter's answer becomes, once the call has been made. */
  lemma UpstreamOutcomes(body: RequestBody, key: Option<string>, upstream: Call -> Upstream)
    requires Post(body, key, upstream).sent.Some?
    ensures var x := Post(body, key, upstream);
      var u := upstream(x.sent.value);
      && (u.NotOk? ==> x.response == Response(502, Failure("OpenRouter error", Some(u.text))))
      && (u == Ok(None) || u == Ok(Some([])) ==> x.response == Response(200, Html([])))
      && (u.Threw? && u.reason.ErrorValue? ==> x.response == Response(500, Failure("Server error", Some(u.reason.message))))
      && (u == Threw(OtherValue) ==> x.response == Response(500, Failure("Server error", Some("Unknown error"))))
  {
    var x := Post(body, key, upstream);
    var u := upstream(x.sent.value);
    if u == Ok(None) || u == Ok(Some([])) {
      assert Trim([]) == [] by {
        TrimBlank([]);
      }
      assert StripFence([]) == [];
    }
  }

  lemma HandleSends(template: string, title: string, rawInfo: string, brand: string, key: string, upstream: Call -> Upstream)
    requires Complete(title, rawInfo, brand) && key != []
    ensures Handle(template, Fields(Some(title), Some(rawInfo), Some(brand)), Some(key), upstream).sent
         == Some(Completion(key, Fill(template, title, rawInfo, brand)))
  {
  }

  /** The prompt the route sends is its template with the three values on the
      lines of their labels, and the key goes into the `Authorization` header. */
  lemma SentPrompt(title: string, rawInfo: string, brand: string, key: string, upstream: Call -> Upstream)
    requires Complete(title, rawInfo, brand) && key != []
    requires '{' !in title && '{' !in rawInfo
    requires '$' !in title && '$' !in rawInfo && '$' !in brand
    ensures Post(Fields(Some(title), Some(rawInfo), Some(brand)), Some(key), upstream).sent
         == Some(Completion(key, PromptHead + title + RawInfoLabel + rawInfo + BrandLabel + brand + PromptTail))
  {
    HandleSends(BasePrompt, title, rawInfo, brand, key, upstream);
    PromptFilled(title, rawInfo, brand);
  }
}
