# Product description generator: the deterministic core

This project models the two pieces of string processing in the product description
generator, and the rule that connects them:

- **The fallback renderer** `buildDummyHtml(t, raw)` (module `FallbackRenderer`, file
  `renderer.dfy`). It splits the free text into trimmed, non-blank lines. At least two
  `*`/`-` bullet lines are promoted to a features list. Every other line with a colon
  becomes a `key: value` specification entry. The intro sentence is chosen by testing the
  first line's characters. Everything is assembled into a fixed HTML skeleton, and an empty
  section is left out.
- **The API route** `POST /api/generate` (module `GenerateRoute`, file `route.dfy`). It
  validates the fields (400) and fills the prompt template by three chained first-occurrence
  `replace` calls. It checks the OpenRouter key (500) and makes one chat-completion call. The
  outcome becomes a response: 502 with the body text, 200 with the fenced answer unwrapped,
  or 500 on any throw. The template text is in `prompt.dfy` (module `PromptTemplate`),
  character for character.
- **The page's fallback rule** in `generateDescription` (module `HomePage`, file `home.dfy`).
  After an ok reply the page shows the reply's `html`, trimmed. After any failure it shows
  the locally built fallback page.

`strings.dfy` (module `Strings`) gives the JavaScript string operations their meaning:
- the ECMAScript whitespace set used by `trim()` and `\s`;
- `trim` and `trimStart`;
- `split`/`join` on one character;
- `indexOf`;
- `String.prototype.replace` with a string pattern, including the `$`-patterns of the
  replacement text.

Everything is pure. The network, the request body parser and the environment become
inputs:
- the parsed body is a `RequestBody`;
- the key is an `Option<string>`;
- OpenRouter's behaviour is a function from the `Call` the handler makes to an `Upstream`
  outcome.

`Handle` is the handler for any template, and `Post` is `Handle` on the route's own
template. Every promise about the handler is proved once, whatever the template.
`buildDummyHtml` and the handler are total functions, so they are deterministic by
construction.

## Model

| member | source | states |
|---|---|---|
| Strings.Trim | app/page.tsx:46 | `trim()` returns a string with no whitespace at either end |
| Strings.TrimMargins | app/page.tsx:46 | the trim is the middle of the input between a blank leading margin and a blank trailing margin |
| Strings.TrimBlank | app/page.tsx:46-47 | a line trims to the empty string (and is dropped by the filter) exactly when it is all whitespace |
| Strings.TrimUnique | app/page.tsx:46 | any split of a string into a blank prefix, a trimmed middle and a blank suffix determines its trim |
| Strings.TrimPadded | app/api/generate/route.ts:68-70 | whitespace added around a string does not change its trim |
| Strings.TrimOfTrimmed | app/api/generate/route.ts:68-70 | trimming is idempotent: a trimmed string is left alone |
| Strings.TrimKeepsOut | app/page.tsx:46 | trimming adds no character, so a line without a line feed keeps none |
| Strings.TrimStart | app/page.tsx:64 | the marker strip's trailing `\s+` leaves a suffix of the input that does not start with whitespace |
| Strings.TrimStartDrops | app/page.tsx:64 | what the leading-whitespace strip removes is whitespace |
| Strings.TrimStartAt | app/page.tsx:64 | the strip stops exactly at the first character that is not whitespace |
| Strings.SplitPieces | app/page.tsx:45 | no piece of `split(c)` contains `c` |
| Strings.JoinSplit | app/page.tsx:55-57 | `split` then `join` with the same separator gives back the input (the `rest.join(':')` round trip) |
| Strings.SplitJoin | app/page.tsx:45 | `join` then `split` gives back pieces that hold no separator |
| Strings.SplitAround | app/page.tsx:45 | a separator splits the text before it from the text after it, in order |
| Strings.SplitWithout | app/page.tsx:45 | a string without the separator is one piece |
| Strings.SplitCount | app/page.tsx:55-56 | `rest` is non-empty exactly when the line has a colon |
| Strings.SplitHeadTail | app/page.tsx:55-57 | `k` is the text before the first colon and `rest.join(':')` the text after it |
| Strings.JoinAppend | app/page.tsx:72 | joining two non-empty lists puts one separator between them |
| Strings.FindSpec | app/api/generate/route.ts:32-34 | the search finds the first occurrence of the placeholder, or reports none only when there is none |
| Strings.FindAfter | app/api/generate/route.ts:32-34 | a pattern whose first character is absent before it is found right there |
| Strings.FindNone | app/api/generate/route.ts:32-34 | a pattern whose first character is absent does not occur |
| Strings.FindFirst | app/api/generate/route.ts:32-34 | an occurrence with none before it is the one found |
| Strings.Substitution | app/api/generate/route.ts:32-34 | a replacement without `$` is inserted literally |
| Strings.ReplaceFirst | app/api/generate/route.ts:32-34 | `replace` with a string pattern leaves text without the pattern unchanged, and otherwise substitutes the first occurrence only |
| Strings.ReplaceAt | app/api/generate/route.ts:32-34 | at the first occurrence, a `$`-free value replaces exactly the placeholder |
| Strings.ReplaceWithMatch | app/api/generate/route.ts:32-34 | a value of `$&` re-inserts the placeholder, so the text is unchanged |
| FallbackRenderer.DropCR | app/page.tsx:45 | the `\r?` of the separator removes the one carriage return right before a line feed, and a piece without one is unchanged |
| FallbackRenderer.LinesShape | app/page.tsx:44-47 | every line is non-empty, trimmed and free of line feeds |
| FallbackRenderer.LinesIgnoreCarriageReturns | app/page.tsx:44-47 | splitting on `\r?\n` gives the same lines as splitting on a bare `\n`, since the trim absorbs the carriage return |
| FallbackRenderer.LinesOfJoin | app/page.tsx:44-47 | the lines of `a + "\n" + b` are the lines of `a` followed by those of `b`, in order |
| FallbackRenderer.LinesOfOneLine | app/page.tsx:44-47 | text without a line feed is one trimmed line, or none when it is blank |
| FallbackRenderer.LinesOfBlank | app/page.tsx:44-47 | empty or whitespace-only text has no lines |
| FallbackRenderer.NonBlankShape | app/page.tsx:46-47 | the filter keeps only non-empty trimmed pieces |
| FallbackRenderer.NonBlankAppend | app/page.tsx:46-47 | trimming and filtering keep the order of the pieces |
| FallbackRenderer.BulletLinesMembers | app/page.tsx:49 | the feature-line filter keeps exactly the lines matching the bullet pattern |
| FallbackRenderer.NonBulletsMembers | app/page.tsx:53 | the reference filter keeps exactly the lines that are not bullets |
| FallbackRenderer.BulletLinesAppend | app/page.tsx:49 | the feature-line filter keeps input order |
| FallbackRenderer.MarkerSplit | app/page.tsx:63-65 | a trimmed bullet line is its marker, a non-empty run of whitespace and the item, which is non-empty and trimmed |
| FallbackRenderer.StripMarkerOfBullet | app/page.tsx:64 | removing the marker undoes writing an item as a bullet |
| FallbackRenderer.UnpromotedMembers | app/page.tsx:53 | the `includes` filter keeps exactly the lines not equal to a promoted line |
| FallbackRenderer.UnpromotedIsClassification | app/page.tsx:49-53 | filtering by equality against the promoted lines removes exactly the bullets when there are at least two, and nothing otherwise |
| FallbackRenderer.SpecEntry | app/page.tsx:54-60 | a line yields an entry exactly when it has a colon |
| FallbackRenderer.SpecEntryParts | app/page.tsx:55-57 | the entry's key is the trimmed text before the first colon, and its value is the trimmed rest with later colons kept |
| FallbackRenderer.SpecEntriesOfOne | app/page.tsx:54-61 | a colon line yields one entry and a colon-free line none |
| FallbackRenderer.SpecEntriesAppend | app/page.tsx:52-61 | entries keep the order of their lines |
| FallbackRenderer.FeaturesOfDescription | app/page.tsx:49-50 | features exist iff at least two lines are bullets, then one `<li>` per bullet line in input order, each the line without its marker |
| FallbackRenderer.FeatureTexts | app/page.tsx:63-65 | each feature item is non-empty and trimmed, and is the bullet line minus its marker and whitespace |
| FallbackRenderer.SpecsOfDescription | app/page.tsx:49-61 | the specification entries come from the non-bullet lines when bullets are promoted, and from every line otherwise |
| FallbackRenderer.SingleBullet | app/page.tsx:49-61 | a single bullet-looking line gives no features list and is colon-split like any other line |
| FallbackRenderer.IntroChoice | app/page.tsx:70 | the intro is the first line iff there is one and it has none of `:`, `*`, `-`, and the synthesized sentence otherwise |
| FallbackRenderer.BlankInput | app/page.tsx:44-70 | blank input gets the synthesized intro, no features and no specifications |
| FallbackRenderer.FeaturesBlock | app/page.tsx:71-73 | the features list is emitted exactly when there are feature entries, so no empty list is emitted |
| FallbackRenderer.SpecsBlock | app/page.tsx:74-77 | the Key Details heading and the specs list appear together exactly when there are entries |
| FallbackRenderer.TemplateRows | app/page.tsx:67-79 | the template literal is a line feed followed by the layout's rows joined by line feeds |
| FallbackRenderer.TrimTemplate | app/page.tsx:79 | the final `.trim()` removes only the leading line feed |
| FallbackRenderer.HtmlFrame | app/page.tsx:67-79 | the output starts with the wrapper and the unescaped `<h2>` title, and ends with the call to action and `</div>` |
| FallbackRenderer.HtmlRows | app/page.tsx:67-79 | split at line feeds, the output is exactly the layout: wrapper, heading, intro, one row per feature (or a blank row), heading and one row per spec (or a blank row), call to action, end tag |
| FallbackRenderer.LayoutRowsSingleLine | app/page.tsx:67-79 | every row of the layout is free of line feeds when the title is |
| FallbackRenderer.DescriptionSingleLine | app/page.tsx:52-70 | the intro, the features and the specification entries hold no line feed when the title holds none |
| FallbackRenderer.TypicalInput | app/page.tsx:43-80 | an intro line, two dash bullets and one `key: value` line become that intro, two features and one entry |
| FallbackRenderer.LumenMirror | app/page.tsx:43-80 | the Lumen Mirror example yields its intro, the two features and the Weight entry |
| PromptTemplate.HeadHasNoBrace | app/api/generate/route.ts:3-17 | no `{` occurs in the template before the `{title}` placeholder |
| GenerateRoute.PromptFilled | app/api/generate/route.ts:31-34 | with brace-free and `$`-free values, each value lands on the line of its own label and the rest of the template is untouched |
| GenerateRoute.BrandCapturedByTitle | app/api/generate/route.ts:31-34 | a placeholder carried in by an earlier value is the one a later `replace` finds: a title `{brand}` receives the brand, and the Brand line keeps its placeholder |
| GenerateRoute.SlotsFilled | app/api/generate/route.ts:31-34 | for any template with the three placeholders in order and no brace elsewhere before them, the three replacements fill the three slots |
| GenerateRoute.SlotCaptured | app/api/generate/route.ts:31-34 | the same template filled with `{brand}` as the title: the brand goes to the title's slot |
| GenerateRoute.SkipOtherSlot | app/api/generate/route.ts:33 | the `{raw_info}` search passes over an earlier `{brand}` |
| GenerateRoute.DropOpening | app/api/generate/route.ts:70 | the opening fence goes; the four characters after it go too exactly when they spell `html` in any case |
| GenerateRoute.DropClosing | app/api/generate/route.ts:70 | a fence at the very end goes, and text without one is unchanged |
| GenerateRoute.StripFence | app/api/generate/route.ts:67-71 | the result is always trimmed, and is the trimmed content when that does not start with a fence |
| GenerateRoute.StripFenced | app/api/generate/route.ts:67-71 | fencing is undone: a body in an opening fence and a closing fence, with whitespace around, comes back as the trimmed body, the fence being tagged `html` in any case or bare before a body that does not itself begin with `html` |
| GenerateRoute.OpeningDropped | app/api/generate/route.ts:70 | the opening-fence pattern removes the fence and its `html` tag, or the bare fence when what follows does not begin with `html`, and nothing else |
| GenerateRoute.NoTagBeforeFence | app/api/generate/route.ts:70 | a closing fence right after a short body is never read as an `html` tag |
| GenerateRoute.ClosingDropped | app/api/generate/route.ts:70 | the closing-fence pattern removes exactly a trailing fence |
| GenerateRoute.StripOpenOnly | app/api/generate/route.ts:67-71 | without a closing fence only the opening one and its tag (if any) go |
| GenerateRoute.StripBareFence | app/api/generate/route.ts:67-71 | a bare fence around trimmed text whose first four characters are not `html` (any case) comes off whole, leaving exactly that text |
| GenerateRoute.StripBareFenceExample | app/api/generate/route.ts:67-71 | a bare fence around `hello` gives `hello`: a word starting with `h` is not taken for a tag |
| GenerateRoute.StripFenceExample | app/api/generate/route.ts:67-71 | an `html`-tagged fence around `<p>X</p>` on its own line gives `<p>X</p>` |
| GenerateRoute.ServerError | app/api/generate/route.ts:74-77 | a throw gives 500 `Server error` with the error's message as detail, or `Unknown error` for a value that is not an Error |
| GenerateRoute.Answer | app/api/generate/route.ts:59-77 | once the call is made: an ok answer gives 200 with the fence-stripped content (empty when absent), a non-ok answer 502 `OpenRouter error` with the body text, a throw the `catch` response; so 200 exactly when OpenRouter answered ok |
| GenerateRoute.Handle | app/api/generate/route.ts:23-78 | status in {200, 400, 500, 502}; 200 iff the payload is html, which is trimmed; an unreadable body gives the `catch` response and no call; a call is made iff all three fields are non-empty and the key is present and non-empty, and without a call the payload is an error; the call carries the key and the filled template, and the response is the answer's |
| GenerateRoute.MissingFields | app/api/generate/route.ts:25-29 | a missing or empty field gives 400 `Missing fields` and no call, whatever the key and OpenRouter |
| GenerateRoute.MissingKey | app/api/generate/route.ts:36-39 | complete fields without a key give 500 `Missing OPENROUTER_KEY` and no call |
| GenerateRoute.UpstreamOutcomes | app/api/generate/route.ts:59-77 | a non-ok answer gives 502 with the body text; an ok answer without content gives 200 with empty html, not an error; a throw gives 500 with the message or `Unknown error` |
| GenerateRoute.HandleSends | app/api/generate/route.ts:41-57 | complete fields and a key: the call made is the completion request for that key and the filled template |
| GenerateRoute.SentPrompt | app/api/generate/route.ts:31-57 | the prompt the route sends is its template with the three values on their labelled lines, with `Bearer` and the key in the Authorization header |
| Strings.SplitOn | app/page.tsx:45 | `split` on one character gives at least one piece; `SplitPieces`, `JoinSplit` and `SplitJoin` state what the pieces are |
| Strings.Join | app/page.tsx:57 | no contract of its own: `JoinSplit`, `SplitJoin` and `JoinAppend` state its properties |
| Strings.Find | app/api/generate/route.ts:32-34 | a reported position leaves room for the pattern; `FindSpec` states that it is the first occurrence |
| FallbackRenderer.RawPieces | app/page.tsx:45 | no contract of its own: the pieces between `\r?\n` separators; `LinesIgnoreCarriageReturns` relates them to a bare `\n` split |
| FallbackRenderer.DropSeparatorCRs | app/page.tsx:45 | one piece per piece of the `\n` split; `DropSeparatorCRsSingleLine` and `NonBlankDropCRs` state what it changes |
| FallbackRenderer.NonBlank | app/page.tsx:46-47 | no more lines than pieces; `NonBlankShape` and `NonBlankAppend` state which lines and in what order |
| FallbackRenderer.Lines | app/page.tsx:44-47 | no contract of its own: `LinesShape`, `LinesOfJoin`, `LinesOfOneLine`, `LinesOfBlank` and `LinesIgnoreCarriageReturns` state its properties |
| FallbackRenderer.IsBullet | app/page.tsx:49 | no contract of its own: the test `^[*-]\s+` on a line, used by `BulletLinesMembers` |
| FallbackRenderer.BulletLines | app/page.tsx:49 | no more bullet lines than lines; `BulletLinesMembers` and `BulletLinesAppend` state which and in what order |
| FallbackRenderer.Promoted | app/page.tsx:50 | no contract of its own: `FeaturesOfDescription`, `SingleBullet` and `UnpromotedIsClassification` state the at-least-two rule |
| FallbackRenderer.Unpromoted | app/page.tsx:53 | no contract of its own: `UnpromotedMembers` and `UnpromotedIsClassification` state what it keeps |
| FallbackRenderer.SpecEntries | app/page.tsx:52-61 | no more entries than candidate lines; `SpecEntriesOfOne` and `SpecEntriesAppend` state one entry per colon line, in order |
| FallbackRenderer.StripMarker | app/page.tsx:64 | no contract of its own: `MarkerSplit` and `StripMarkerOfBullet` state what it removes and that it inverts writing a bullet |
| FallbackRenderer.FeatureItems | app/page.tsx:63-65 | no contract of its own: `FeaturesOfDescription` and `FeatureTexts` state the entries |
| FallbackRenderer.Intro | app/page.tsx:70 | no contract of its own: `IntroChoice` and `BlankInput` state the choice |
| FallbackRenderer.Describe | app/page.tsx:44-70 | no contract of its own: `FeaturesOfDescription`, `SpecsOfDescription`, `IntroChoice`, `BlankInput`, `TypicalInput` state its fields |
| FallbackRenderer.Template | app/page.tsx:67-79 | no contract of its own: `TemplateRows` and `TrimTemplate` relate it to the independent `Layout` |
| FallbackRenderer.Layout | app/page.tsx:67-79 | no contract of its own: the reference row list that `TemplateRows` and `HtmlRows` compare the output with |
| FallbackRenderer.BuildDummyHtml | app/page.tsx:43-80 | no contract of its own: `HtmlFrame` (every output), `HtmlRows` (titles on one line) and the description lemmas state its properties |
| GenerateRoute.Fill | app/api/generate/route.ts:31-34 | no contract of its own: `SlotsFilled`, `SlotCaptured` and `SkipOtherSlot` state what the three chained replacements do |
| GenerateRoute.FillPrompt | app/api/generate/route.ts:31-34 | no contract of its own: `PromptFilled` and `BrandCapturedByTitle` state the filled prompt |
| GenerateRoute.Completion | app/api/generate/route.ts:41-57 | no contract of its own: the request made, with the URL, headers, model, messages and temperature of the source; `HandleSends` and `SentPrompt` state that it is what is sent |
| GenerateRoute.Field | app/api/generate/route.ts:25 | no contract of its own: an absent field reads as empty, as `MissingFields` uses |
| GenerateRoute.Complete | app/api/generate/route.ts:27 | no contract of its own: the three fields are non-empty, the condition of `Handle`, `MissingFields` and `MissingKey` |
| GenerateRoute.Post | app/api/generate/route.ts:23-78 | no contract of its own: `Handle` on the route's template, so every `Handle` clause holds of it; `MissingFields`, `MissingKey`, `UpstreamOutcomes` and `SentPrompt` state it directly |
| HomePage.Generate | app/page.tsx:86-105 | no contract of its own: `GenerateOutcome`, `GenerateTrimmed`, `BlankFieldFallsBack` and `EmptyAnswerShownEmpty` state what the page shows |
| HomePage.Shown | app/page.tsx:94-104 | an ok reply shows its `html` trimmed (empty when absent), and anything else shows the fallback |
| HomePage.Received | app/page.tsx:87-94 | the page sees the route's status, and an `html` field exactly when the payload is html |
| HomePage.Outcome | app/page.tsx:86-105 | for any template and fallback, the page shows the stripped answer exactly when the call was made and answered ok, and the fallback otherwise |
| HomePage.GenerateOutcome | app/page.tsx:86-105 | end to end against the route: the cleaned model answer when OpenRouter was reached and answered ok, and `buildDummyHtml(title, info)` after a missing field, a missing key, an upstream error or a throw |
| HomePage.GenerateTrimmed | app/page.tsx:86-105 | what the page shows is always trimmed |
| HomePage.BlankFieldFallsBack | app/page.tsx:86-105 | a blank field never reaches OpenRouter, and the page shows the fallback |
| HomePage.EmptyAnswerShownEmpty | app/page.tsx:93-95 | an ok answer without content shows an empty result, not the fallback |

## Left out

- The JSX rendering, the React state and its setters, the loading and copied flags, and the
  `setTimeout` timer of the page are not modelled: they are UI state and timers.
- `copyToClipboard` is not modelled. It is browser clipboard and DOM I/O, and does not
  affect the shown result.
- The network call, `req.json()`, `r.json()`/`r.text()`, `NextResponse` and
  `process.env` are inputs: a `RequestBody`, an `Option<string>` key and a function from
  the `Call` made to an `Upstream` outcome. The JSON encoding of the call's body is not
  modelled.
- Non-string JSON values are not modelled. Fields are strings or absent. An answer's content
  is a string or absent. A non-string truthy content, which makes `trim` throw, is not
  represented.
- `app/layout.tsx` is not part of this model: it is pure layout and metadata.
- HTML escaping: the source does none and the model adds none. No lemma claims well-formed
  HTML for arbitrary titles.
- The regular expressions are written as hand-made matchers. These cover the bullet marker
  `^[*-]\s+`, the opening fence with its optional case-insensitive `html` tag, and the
  closing fence. No general regular-expression engine is modelled.
- Whitespace is the fixed ECMAScript set of `trim()` and `\s`, with no Unicode database
  beyond it.
- GenerateRoute.Post: it carries no contract of its own. It is `Handle` on the route's
  template, and every promise is proved for `Handle` over any template, with `SentPrompt`
  instantiating it for the route's own.
- GenerateRoute.PromptFilled: stated only for a title and raw text without `{`, and for
  values without `$`. `Fill` models the general case, including the `$`-patterns, and
  `BrandCapturedByTitle` and `ReplaceWithMatch` show two consequences outside that case.
- GenerateRoute.SentPrompt: has the same preconditions as `PromptFilled`.
- FallbackRenderer.HtmlRows: stated for a title without a line feed, since a title with one
  spreads its heading over several rows. `HtmlFrame` holds for every title.
- FallbackRenderer.LayoutRowsSingleLine: has the same restriction on the title as
  `HtmlRows`.
