/** The client-side fallback renderer `buildDummyHtml(t, raw)` of app/page.tsx:
    it turns a title and loosely structured free text into a fixed HTML
    skeleton (title, intro sentence, optional feature bullets, optional
    key/value specifications, closing call to action). */
module FallbackRenderer {
  import opened Strings

  /** No string of `ss` holds a line feed. */
  predicate NoNewline(ss: seq<string>) {
    forall l :: l in ss ==> '\n' !in l
  }

  // ---------------------------------------------------------------------------
  // Lines

  /** A piece that a line feed follows loses one trailing carriage return: the
      separator is `\r?\n`. */
  function DropCR(p: string): (q: string)
    ensures p != [] && p[|p| - 1] == '\r' ==> p == q + "\r"
    ensures !(p != [] && p[|p| - 1] == '\r') ==> q == p
  {
    if p != [] && p[|p| - 1] == '\r' then p[..|p| - 1] else p
  }

  /** From the pieces of `raw.split('\n')` to those of `raw.split(/\r?\n/)`:
      every piece but the last is followed by a separator. */
  function DropSeparatorCRs(parts: seq<string>): (pieces: seq<string>)
    ensures |pieces| == |parts|
  {
    if |parts| <= 1 then parts
    else [DropCR(parts[0])] + DropSeparatorCRs(parts[1..])
  }

  /** Dropping carriage returns adds no line feed. */
  lemma {:induction false} DropSeparatorCRsSingleLine(parts: seq<string>)
    requires NoNewline(parts)
    ensures NoNewline(DropSeparatorCRs(parts))
  {
    if |parts| > 1 {
      var q := DropCR(parts[0]);
      assert parts[0] in parts;
      assert '\n' !in q by {
        assert parts[0] == q || parts[0] == q + "\r";
        assert forall x :: x in q ==> x in q + "\r";
      }
      assert forall l :: l in parts[1..] ==> l in parts;
      DropSeparatorCRsSingleLine(parts[1..]);
    }
  }

  /** The pieces of `raw` between line breaks, a line break being a line feed
      with an optional carriage return before it. */
  function RawPieces(raw: string): seq<string> {
    DropSeparatorCRs(SplitOn(raw, '\n'))
  }

  /** Each piece trimmed, in order, with the pieces that trim to nothing dropped. */
  function NonBlank(pieces: seq<string>): (lines: seq<string>)
    ensures |lines| <= |pieces|
  {
    if pieces == [] then []
    else
      var l := Trim(pieces[0]);
      (if l == [] then [] else [l]) + NonBlank(pieces[1..])
  }

  /** What the filter keeps is non-empty and trimmed, and holds no line feed
      when the pieces hold none. */
  lemma {:induction false} NonBlankShape(pieces: seq<string>)
    ensures forall i :: 0 <= i < |NonBlank(pieces)| ==> NonBlank(pieces)[i] != [] && Trimmed(NonBlank(pieces)[i])
    ensures NoNewline(pieces) ==> NoNewline(NonBlank(pieces))
  {
    if pieces != [] {
      NonBlankShape(pieces[1..]);
      var l := Trim(pieces[0]);
      if '\n' !in pieces[0] { TrimKeepsOut(pieces[0], '\n'); }
      assert forall x :: x in pieces[1..] ==> x in pieces;
      var rest := NonBlank(pieces[1..]);
      assert NonBlank(pieces) == (if l == [] then [] else [l]) + rest;
    }
  }

  /** The lines of `raw` the renderer works on: split at line breaks, trimmed,
      blank ones dropped, in input order. */
  function Lines(raw: string): seq<string> {
    NonBlank(RawPieces(raw))
  }

  /** Every line is non-empty, has no whitespace at either end and holds no
      line feed. */
  lemma LinesShape(raw: string)
    ensures forall i :: 0 <= i < |Lines(raw)| ==> Lines(raw)[i] != [] && Trimmed(Lines(raw)[i])
    ensures NoNewline(Lines(raw))
  {
    var parts := SplitOn(raw, '\n');
    SplitPieces(raw, '\n');
    assert NoNewline(parts) by {
      forall l | l in parts ensures '\n' !in l {
        var i :| 0 <= i < |parts| && parts[i] == l;
      }
    }
    DropSeparatorCRsSingleLine(parts);
    NonBlankShape(RawPieces(raw));
  }

  lemma {:induction false} NonBlankAppend(p: seq<string>, q: seq<string>)
    ensures NonBlank(p + q) == NonBlank(p) + NonBlank(q)
  {
    if p != [] {
      assert (p + q)[0] == p[0] && (p + q)[1..] == p[1..] + q;
      NonBlankAppend(p[1..], q);
    } else {
      assert p + q == q;
    }
  }

  /** Trimming absorbs the carriage return a `\r\n` separator would remove. */
  lemma {:induction false} NonBlankDropCRs(parts: seq<string>)
    ensures NonBlank(DropSeparatorCRs(parts)) == NonBlank(parts)
  {
    if |parts| > 1 {
      var p, rest := parts[0], parts[1..];
      var q := DropCR(p);
      assert DropSeparatorCRs(parts) == [q] + DropSeparatorCRs(rest);
      assert NonBlank([q] + DropSeparatorCRs(rest)) == NonBlank([q]) + NonBlank(DropSeparatorCRs(rest)) by {
        NonBlankAppend([q], DropSeparatorCRs(rest));
      }
      assert NonBlank(parts) == NonBlank([p]) + NonBlank(rest) by {
        assert parts == [p] + rest;
        NonBlankAppend([p], rest);
      }
      NonBlankDropCRs(rest);
      NonBlankDropCR(p);
    }
  }

  lemma NonBlankDropCR(p: string)
    ensures NonBlank([DropCR(p)]) == NonBlank([p])
  {
    var q := DropCR(p);
    if p != q {
      TrimPadded([], q, "\r");
      assert [] + q + "\r" == p;
    }
    assert [q][1..] == [] && [p][1..] == [];
  }

  /** Splitting on `\r?\n` or on a bare `\n` gives the same lines. */
  lemma LinesIgnoreCarriageReturns(raw: string)
    ensures Lines(raw) == NonBlank(SplitOn(raw, '\n'))
  {
    NonBlankDropCRs(SplitOn(raw, '\n'));
  }

  /** Text without a line feed is one line, or none when it is blank. */
  lemma LinesOfOneLine(s: string)
    requires '\n' !in s
    ensures Lines(s) == if AllWs(s) then [] else [Trim(s)]
  {
    SplitWithout(s, '\n');
    TrimBlank(s);
  }

  /** Line splitting is compositional: a line feed separates the lines of the
      text before it from those of the text after it, in order. */
  lemma LinesOfJoin(a: string, b: string)
    ensures Lines(a + "\n" + b) == Lines(a) + Lines(b)
  {
    LinesIgnoreCarriageReturns(a + "\n" + b);
    LinesIgnoreCarriageReturns(a);
    LinesIgnoreCarriageReturns(b);
    SplitAround(a, b, '\n');
    NonBlankAppend(SplitOn(a, '\n'), SplitOn(b, '\n'));
  }

  /** Empty or whitespace-only text has no lines. */
  lemma {:induction false} LinesOfBlank(raw: string)
    requires AllWs(raw)
    ensures Lines(raw) == []
    decreases |raw|
  {
    if '\n' in raw {
      var i :| 0 <= i < |raw| && raw[i] == '\n';
      var a, b := raw[..i], raw[i + 1..];
      assert raw == a + "\n" + b;
      assert AllWs(a) by { forall k | 0 <= k < |a| ensures IsWs(a[k]) { assert a[k] == raw[k]; } }
      assert AllWs(b) by { forall k | 0 <= k < |b| ensures IsWs(b[k]) { assert b[k] == raw[i + 1 + k]; } }
      LinesOfJoin(a, b);
      LinesOfBlank(a);
      LinesOfBlank(b);
    } else {
      LinesOfOneLine(raw);
    }
  }

  // ---------------------------------------------------------------------------
  // Feature bullets

  /** A bullet line: a `*` or `-` marker at the start, then whitespace. */
  predicate IsBullet(l: string) {
    |l| >= 2 && (l[0] == '*' || l[0] == '-') && IsWs(l[1])
  }

  /** The bullet lines, in order. */
  function BulletLines(lines: seq<string>): (b: seq<string>)
    ensures |b| <= |lines|
  {
    if lines == [] then []
    else (if IsBullet(lines[0]) then [lines[0]] else []) + BulletLines(lines[1..])
  }

  /** The filter keeps exactly the bullet lines. */
  lemma {:induction false} BulletLinesMembers(lines: seq<string>)
    ensures forall i :: 0 <= i < |BulletLines(lines)| ==> IsBullet(BulletLines(lines)[i])
    ensures forall l :: l in BulletLines(lines) <==> l in lines && IsBullet(l)
  {
    if lines != [] {
      BulletLinesMembers(lines[1..]);
      assert lines == [lines[0]] + lines[1..];
    }
  }

  /** The lines that are not bullets, in order: the reference for what is left
      once the bullets are promoted. */
  function NonBullets(lines: seq<string>): seq<string> {
    if lines == [] then []
    else (if IsBullet(lines[0]) then [] else [lines[0]]) + NonBullets(lines[1..])
  }

  /** The filter keeps exactly the lines that are not bullets. */
  lemma {:induction false} NonBulletsMembers(lines: seq<string>)
    ensures forall l :: l in NonBullets(lines) <==> l in lines && !IsBullet(l)
  {
    if lines != [] {
      NonBulletsMembers(lines[1..]);
      assert lines == [lines[0]] + lines[1..];
    }
  }

  lemma {:induction false} BulletLinesAppend(a: seq<string>, b: seq<string>)
    ensures BulletLines(a + b) == BulletLines(a) + BulletLines(b)
  {
    if a != [] {
      assert (a + b)[0] == a[0] && (a + b)[1..] == a[1..] + b;
      BulletLinesAppend(a[1..], b);
    } else {
      assert a + b == b;
    }
  }

  /** The bullet lines when there are at least two of them, and none otherwise. */
  function Promoted(lines: seq<string>): seq<string> {
    var b := BulletLines(lines);
    if |b| >= 2 then b else []
  }

  /** The marker and every whitespace character after it are removed; a line
      without the marker is kept. */
  function StripMarker(l: string): string {
    if IsBullet(l) then TrimStart(l[1..]) else l
  }

  /** A trimmed bullet line is its marker, a non-empty run of whitespace, and
      the non-empty, trimmed item text that `StripMarker` returns. */
  lemma MarkerSplit(l: string)
    requires IsBullet(l) && Trimmed(l)
    ensures
      var f := StripMarker(l);
      && f != [] && Trimmed(f) && |f| <= |l| - 2
      && l == [l[0]] + l[1..|l| - |f|] + f
      && AllWs(l[1..|l| - |f|])
  {
    var f := StripMarker(l);
    var m := l[1..];
    assert f == TrimStart(m);
    TrimStartDrops(m);
    assert m[|m| - 1] == l[|l| - 1];
    assert !AllWs(m);
    assert f != [];
    assert f[|f| - 1] == l[|l| - 1];
    assert IsWs(m[..|m| - |f|][0]);
    assert l[1..|l| - |f|] == m[..|m| - |f|];
    assert l == [l[0]] + m[..|m| - |f|] + f;
  }

  /** `StripMarker` is the inverse of writing an item as a bullet. */
  lemma StripMarkerOfBullet(marker: char, gap: string, item: string)
    requires marker == '*' || marker == '-'
    requires gap != [] && AllWs(gap) && item != [] && !IsWs(item[0])
    ensures StripMarker([marker] + gap + item) == item
  {
    var l := [marker] + gap + item;
    assert l[1] == gap[0];
    assert l[1..] == gap + item;
    assert (gap + item)[..|gap|] == gap && (gap + item)[|gap|] == item[0];
    TrimStartAt(gap + item, |gap|);
    assert (gap + item)[|gap|..] == item;
  }

  /** One list entry per promoted line, holding the line without its marker. */
  function FeatureItems(promoted: seq<string>): seq<string> {
    seq(|promoted|, i requires 0 <= i < |promoted| => "<li>" + StripMarker(promoted[i]) + "</li>")
  }

  // ---------------------------------------------------------------------------
  // Specification items

  /** The lines equal to none of the promoted ones, in order. */
  function Unpromoted(lines: seq<string>, promoted: seq<string>): seq<string> {
    if lines == [] then []
    else (if lines[0] in promoted then [] else [lines[0]]) + Unpromoted(lines[1..], promoted)
  }

  /** The filter keeps exactly the lines that are not among the promoted ones. */
  lemma {:induction false} UnpromotedMembers(lines: seq<string>, promoted: seq<string>)
    ensures forall l :: l in Unpromoted(lines, promoted) <==> l in lines && l !in promoted
  {
    if lines != [] {
      UnpromotedMembers(lines[1..], promoted);
      assert lines == [lines[0]] + lines[1..];
    }
  }

  /** The entry a line contributes: when the line has a colon, a list entry
      with the trimmed text before the first colon in bold, followed by the
      trimmed rest (later colons rejoined); otherwise the empty string. */
  function SpecEntry(l: string): (e: string)
    ensures e == [] <==> ':' !in l
  {
    var parts := SplitOn(l, ':');
    SplitCount(l, ':');
    if |parts| > 1 then
      "<li><strong>" + Trim(parts[0]) + ":</strong> " + Trim(Join(parts[1..], ":")) + "</li>"
    else []
  }

  /** The non-empty entries of the candidate lines, in order. */
  function SpecEntries(candidates: seq<string>): (entries: seq<string>)
    ensures |entries| <= |candidates|
  {
    if candidates == [] then []
    else
      var e := SpecEntry(candidates[0]);
      (if e == [] then [] else [e]) + SpecEntries(candidates[1..])
  }

  /** The key is the text before the first colon, the value everything after it
      (later colons kept), both trimmed. */
  lemma SpecEntryParts(l: string, i: nat)
    requires i < |l| && l[i] == ':' && ':' !in l[..i]
    ensures SpecEntry(l) == "<li><strong>" + Trim(l[..i]) + ":</strong> " + Trim(l[i + 1..]) + "</li>"
  {
    SplitHeadTail(l, ':', i);
  }

  /** One entry per line that has a colon, none for a line without. */
  lemma SpecEntriesOfOne(l: string)
    ensures SpecEntries([l]) == if ':' in l then [SpecEntry(l)] else []
  {
    assert [l][1..] == [];
  }

  /** Entries keep the order of their lines. */
  lemma {:induction false} SpecEntriesAppend(a: seq<string>, b: seq<string>)
    ensures SpecEntries(a + b) == SpecEntries(a) + SpecEntries(b)
  {
    if a != [] {
      var e := SpecEntry(a[0]);
      var head := if e == [] then [] else [e];
      assert (a + b)[0] == a[0] && (a + b)[1..] == a[1..] + b;
      assert SpecEntries(a + b) == head + SpecEntries(a[1..] + b);
      assert SpecEntries(a) == head + SpecEntries(a[1..]);
      SpecEntriesAppend(a[1..], b);
    } else {
      assert a + b == b;
    }
  }

  /** Filtering by string equality against the promoted lines removes exactly
      the bullet lines when they are promoted, and nothing otherwise. */
  lemma {:induction false} UnpromotedIsClassification(lines: seq<string>)
    ensures Unpromoted(lines, Promoted(lines)) ==
      if |BulletLines(lines)| >= 2 then NonBullets(lines) else lines
  {
    if |BulletLines(lines)| >= 2 {
      BulletLinesMembers(lines);
      UnpromotedBullets(lines, BulletLines(lines));
    } else {
      UnpromotedNone(lines);
    }
  }

  lemma {:induction false} UnpromotedBullets(lines: seq<string>, b: seq<string>)
    requires forall l :: l in b <==> IsBullet(l) && l in lines
    ensures Unpromoted(lines, b) == NonBullets(lines)
  {
    if lines != [] {
      assert forall l :: l in lines[1..] ==> l in lines;
      UnpromotedBulletsTail(lines[1..], b);
    }
  }

  lemma {:induction false} UnpromotedBulletsTail(lines: seq<string>, b: seq<string>)
    requires forall l :: l in lines ==> (l in b <==> IsBullet(l))
    ensures Unpromoted(lines, b) == NonBullets(lines)
  {
    if lines != [] {
      UnpromotedBulletsTail(lines[1..], b);
    }
  }

  lemma {:induction false} UnpromotedNone(lines: seq<string>)
    ensures Unpromoted(lines, []) == lines
  {
    if lines != [] {
      UnpromotedNone(lines[1..]);
    }
  }

  // ---------------------------------------------------------------------------
  // Intro

  /** The synthesized intro sentence. */
  function Synthesized(t: string): string {
    "Discover the " + t + " crafted for modern needs."
  }

  /** The first line when there is one and it has none of `:`, `*`, `-`, and
      the synthesized sentence otherwise. */
  function Intro(t: string, lines: seq<string>): string {
    if |lines| > 0 && lines[0] != [] && ':' !in lines[0] && '*' !in lines[0] && '-' !in lines[0]
    then lines[0]
    else Synthesized(t)
  }

  // ---------------------------------------------------------------------------
  // Assembly

  /** What the page is built from: the title, the intro sentence, the feature
      `<li>` entries and the specification `<li>` entries. */
  datatype Description = Description(title: string, intro: string, bullets: seq<string>, specs: seq<string>)

  function Describe(t: string, raw: string): Description {
    var lines := Lines(raw);
    var promoted := Promoted(lines);
    Description(t, Intro(t, lines), FeatureItems(promoted), SpecEntries(Unpromoted(lines, promoted)))
  }

  // The pieces of the template literal.
  const NL := "\n"
  const Margin := "  "
  const ItemMargin := "    "
  const Opening := "<div class=\"product-description\">"
  const Closing := "</div>"
  const FeaturesOpen := "<ul class=\"features\">"
  const SpecsHeading := "<h3>Key Details</h3>"
  const SpecsOpen := "<ul class=\"specs\">"
  const ListClose := "</ul>"

  const CtaLead := "<p class=\"cta\">" + "Upgrade your " + "experience " + "with the "

  function Heading(t: string): string { Margin + "<h2>" + t + "</h2>" }
  function IntroRow(intro: string): string { Margin + "<p>" + intro + "</p>" }
  function CallToAction(t: string): string {
    Margin + CtaLead + t + " today.</p>"
  }

  /** The features list, one indented entry per row, or nothing without entries. */
  function FeaturesBlock(bullets: seq<string>): (block: string)
    ensures block == [] <==> bullets == []
  {
    if |bullets| > 0 then FeaturesOpen + NL + ItemMargin + Join(bullets, NL + ItemMargin) + NL + Margin + ListClose
    else []
  }

  /** The Key Details heading and the specs list, one indented entry per row,
      or nothing without entries. */
  function SpecsBlock(specs: seq<string>): (block: string)
    ensures block == [] <==> specs == []
  {
    if |specs| > 0 then
      SpecsHeading + NL + Margin + SpecsOpen + NL + ItemMargin + Join(specs, NL + ItemMargin) + NL + Margin + ListClose
    else []
  }

  /** The template literal before `.trim()`. It starts with a line feed, and a
      left-out section leaves its two-space margin on a row of its own. */
  function Template(d: Description): string {
    NL + Opening + NL + Heading(d.title) + NL + IntroRow(d.intro) + NL + Margin + FeaturesBlock(d.bullets)
    + NL + Margin + SpecsBlock(d.specs) + NL + CallToAction(d.title) + NL + Closing
  }

  /** The fallback page for a title and free text: the template, trimmed. */
  function BuildDummyHtml(t: string, raw: string): string {
    Trim(Template(Describe(t, raw)))
  }

  /** The output row by row, as an independent reference for the assembled string. */
  function Layout(d: Description): seq<string> {
    [Opening, Heading(d.title), IntroRow(d.intro)] + FeatureRows(d.bullets) + SpecRows(d.specs)
    + [CallToAction(d.title), Closing]
  }

  function Indented(items: seq<string>, margin: string): seq<string> {
    seq(|items|, i requires 0 <= i < |items| => margin + items[i])
  }

  /** The features list, one row per item, or a blank row when there are none. */
  function FeatureRows(bullets: seq<string>): seq<string> {
    if |bullets| > 0 then [Margin + FeaturesOpen] + Indented(bullets, ItemMargin) + [Margin + ListClose]
    else [Margin]
  }

  /** The Key Details heading and the specs list, one row per item, or a blank row. */
  function SpecRows(specs: seq<string>): seq<string> {
    if |specs| > 0 then [Margin + SpecsHeading, Margin + SpecsOpen] + Indented(specs, ItemMargin) + [Margin + ListClose]
    else [Margin]
  }

  // ---------------------------------------------------------------------------
  // Properties of the description

  /** At least two bullet lines are promoted to the features list, one entry
      each, in input order, each the line without its marker; with fewer there
      is no features list. */
  lemma FeaturesOfDescription(t: string, raw: string)
    ensures
      var b := BulletLines(Lines(raw));
      var d := Describe(t, raw);
      && (d.bullets != [] <==> |b| >= 2)
      && (|b| >= 2 ==> |d.bullets| == |b|)
      && (|b| >= 2 ==> forall i :: 0 <= i < |b| ==> d.bullets[i] == "<li>" + StripMarker(b[i]) + "</li>")
  {
  }

  /** Every promoted entry holds the text after the marker and its whitespace:
      non-empty and trimmed. */
  lemma FeatureTexts(lines: seq<string>, i: nat)
    requires forall k :: 0 <= k < |lines| ==> Trimmed(lines[k])
    requires i < |BulletLines(lines)|
    ensures
      var l := BulletLines(lines)[i];
      var f := StripMarker(l);
      f != [] && Trimmed(f) && |f| <= |l| - 2 && l == [l[0]] + l[1..|l| - |f|] + f && AllWs(l[1..|l| - |f|])
  {
    var l := BulletLines(lines)[i];
    BulletLinesMembers(lines);
    assert l in lines;
    MarkerSplit(l);
  }

  /** The specification channel: with the bullets promoted, the entries come
      from the non-bullet lines; otherwise (in particular with a single
      bullet-looking line) from every line. */
  lemma SpecsOfDescription(t: string, raw: string)
    ensures
      var lines := Lines(raw);
      Describe(t, raw).specs ==
        SpecEntries(if |BulletLines(lines)| >= 2 then NonBullets(lines) else lines)
  {
    UnpromotedIsClassification(Lines(raw));
  }

  /** A single bullet-looking line is not promoted and is read for a colon like
      any other line. */
  lemma SingleBullet(t: string, raw: string)
    requires |BulletLines(Lines(raw))| == 1
    ensures Describe(t, raw).bullets == []
    ensures Describe(t, raw).specs == SpecEntries(Lines(raw))
  {
    UnpromotedIsClassification(Lines(raw));
  }

  /** The intro is the first line when there is one and it has none of `:`,
      `*`, `-`; otherwise it is synthesized from the title. */
  lemma IntroChoice(t: string, raw: string)
    ensures
      var lines := Lines(raw);
      Describe(t, raw).intro ==
        if |lines| > 0 && ':' !in lines[0] && '*' !in lines[0] && '-' !in lines[0] then lines[0]
        else Synthesized(t)
  {
    LinesShape(raw);
  }

  /** Empty or whitespace-only text gets the synthesized intro and neither list. */
  lemma BlankInput(t: string, raw: string)
    requires AllWs(raw)
    ensures Describe(t, raw) == Description(t, Synthesized(t), [], [])
  {
    var lines := Lines(raw);
    assert lines == [] by { LinesOfBlank(raw); }
    assert Promoted(lines) == [];
    assert FeatureItems([]) == [];
    assert Unpromoted(lines, []) == [];
  }

  // ---------------------------------------------------------------------------
  // Properties of the assembled page

  lemma {:induction false} JoinIndented(items: seq<string>, margin: string)
    requires |items| >= 1
    ensures Join(Indented(items, margin), NL) == margin + Join(items, NL + margin)
  {
    if |items| > 1 {
      JoinIndented(items[1..], margin);
      assert Indented(items, margin)[1..] == Indented(items[1..], margin);
    }
  }

  lemma JoinFramed(first: string, rows: seq<string>, last: string, sep: string)
    requires |rows| >= 1
    ensures Join([first] + rows + [last], sep) == first + sep + Join(rows, sep) + sep + last
  {
    JoinAppend([first], rows, sep);
    JoinAppend([first] + rows, [last], sep);
  }

  lemma FeatureRowsJoin(bullets: seq<string>)
    ensures Join(FeatureRows(bullets), NL) == Margin + FeaturesBlock(bullets)
  {
    if |bullets| > 0 {
      var rows := Indented(bullets, ItemMargin);
      var first, last := Margin + FeaturesOpen, Margin + ListClose;
      assert FeatureRows(bullets) == [first] + rows + [last];
      JoinFramed(first, rows, last, NL);
      var j := Join(bullets, NL + ItemMargin);
      JoinIndented(bullets, ItemMargin);
      assert FeaturesBlock(bullets) == FeaturesOpen + NL + ItemMargin + j + NL + Margin + ListClose;
      Regroup(Margin, FeaturesOpen, NL, ItemMargin, j, ListClose);
    }
  }

  /** Regroups the features rows so that the common margin comes first. */
  lemma Regroup(m: string, open: string, nl: string, im: string, j: string, close: string)
    ensures (m + open) + nl + (im + j) + nl + (m + close) == m + (open + nl + im + j + nl + m + close)
  {
  }

  lemma SpecRowsJoin(specs: seq<string>)
    ensures Join(SpecRows(specs), NL) == Margin + SpecsBlock(specs)
  {
    if |specs| > 0 {
      var rows := Indented(specs, ItemMargin);
      var first, second, last := Margin + SpecsHeading, Margin + SpecsOpen, Margin + ListClose;
      assert SpecRows(specs) == [first] + ([second] + rows) + [last];
      JoinFramed(first, [second] + rows, last, NL);
      JoinAppend([second], rows, NL);
      var j := Join(specs, NL + ItemMargin);
      JoinIndented(specs, ItemMargin);
      assert SpecsBlock(specs) == SpecsHeading + NL + Margin + SpecsOpen + NL + ItemMargin + j + NL + Margin + ListClose;
      RegroupSpecs(Margin, SpecsHeading, SpecsOpen, NL, ItemMargin, j, ListClose);
    }
  }

  /** Regroups the Key Details rows so that the common margin comes first. */
  lemma RegroupSpecs(m: string, heading: string, open: string, nl: string, im: string, j: string, close: string)
    ensures (m + heading) + nl + ((m + open) + nl + (im + j)) + nl + (m + close)
         == m + (heading + nl + m + open + nl + im + j + nl + m + close)
  {
  }

  lemma JoinThree(a: string, b: string, c: string, sep: string)
    ensures Join([a, b, c], sep) == a + sep + b + sep + c
  {
    assert [a, b, c][1..] == [b, c];
    assert [b, c][1..] == [c];
    assert Join([b, c], sep) == b + sep + c;
  }

  lemma JoinTwo(a: string, b: string, sep: string)
    ensures Join([a, b], sep) == a + sep + b
  {
    assert [a, b][1..] == [b];
  }

  /** Row by row, the template after its leading line feed is the layout. */
  lemma TemplateRows(d: Description)
    ensures Template(d) == NL + Join(Layout(d), NL)
  {
    var h, i, c := Heading(d.title), IntroRow(d.intro), CallToAction(d.title);
    var f, sp := FeaturesBlock(d.bullets), SpecsBlock(d.specs);
    var top, bottom := [Opening, h, i], [c, Closing];
    var fr, sr := FeatureRows(d.bullets), SpecRows(d.specs);
    assert Layout(d) == top + fr + sr + bottom;
    JoinThree(Opening, h, i, NL);
    JoinTwo(c, Closing, NL);
    FeatureRowsJoin(d.bullets);
    SpecRowsJoin(d.specs);
    JoinAppend(top, fr, NL);
    JoinAppend(top + fr, sr, NL);
    JoinAppend(top + fr + sr, bottom, NL);
    assert Join(Layout(d), NL)
        == (((Opening + NL + h + NL + i) + NL + (Margin + f)) + NL + (Margin + sp)) + NL + (c + NL + Closing);
    assert Template(d) == NL + Opening + NL + h + NL + i + NL + Margin + f + NL + Margin + sp + NL + c + NL + Closing;
    RegroupRows(NL, Opening, h, i, Margin, f, sp, c, Closing);
  }

  /** Regroups the template literal into the joined rows of the layout. */
  lemma RegroupRows(n: string, o: string, h: string, i: string, m: string, f: string, s: string, c: string, cl: string)
    ensures n + o + n + h + n + i + n + m + f + n + m + s + n + c + n + cl
         == n + ((((o + n + h + n + i) + n + (m + f)) + n + (m + s)) + n + (c + n + cl))
  {
  }

  /** Regroups the template literal into head, middle and tail. */
  lemma RegroupFrame(n: string, o: string, h: string, i: string, m: string, f: string, s: string, c: string, cl: string)
    ensures n + o + n + h + n + i + n + m + f + n + m + s + n + c + n + cl
         == n + ((o + n + h + n) + (i + n + m + f + n + m + s) + (n + c + n + cl))
  {
  }

  /** Regroups the template literal into its leading line feed, the wrapper tags and the middle. */
  lemma RegroupEnds(n: string, o: string, h: string, i: string, m: string, f: string, s: string, c: string, cl: string)
    ensures n + o + n + h + n + i + n + m + f + n + m + s + n + c + n + cl
         == n + (o + (n + h + n + i + n + m + f + n + m + s + n + c + n) + cl)
  {
  }

  lemma TrimFramed(pre: string, a: string, m: string, b: string)
    requires AllWs(pre) && a != [] && b != [] && !IsWs(a[0]) && !IsWs(b[|b| - 1])
    ensures Trim(pre + (a + m + b)) == a + m + b
  {
    var x := a + m + b;
    assert x[0] == a[0] && x[|x| - 1] == b[|b| - 1];
    TrimOfTrimmed(x);
    TrimPadded(pre, x, []);
    assert pre + x + [] == pre + x;
  }

  /** `.trim()` removes only the template's leading line feed. */
  lemma TrimTemplate(d: Description)
    ensures Trim(Template(d)) == Template(d)[1..]
  {
    var m := TemplateShape(d);
    var x := Opening + m + Closing;
    assert AllWs(NL);
    TrimFramed(NL, Opening, m, Closing);
    assert (NL + x)[1..] == x;
  }

  /** The template is a line feed, then the wrapper's opening tag, some middle
      and the wrapper's end tag. */
  lemma TemplateShape(d: Description) returns (m: string)
    ensures Template(d) == NL + (Opening + m + Closing)
  {
    var h, i, c := Heading(d.title), IntroRow(d.intro), CallToAction(d.title);
    var f, sp := FeaturesBlock(d.bullets), SpecsBlock(d.specs);
    m := NL + h + NL + i + NL + Margin + f + NL + Margin + sp + NL + c + NL;
    assert Template(d) == NL + Opening + NL + h + NL + i + NL + Margin + f + NL + Margin + sp + NL + c + NL + Closing;
    RegroupEnds(NL, Opening, h, i, Margin, f, sp, c, Closing);
  }

  /** What every page starts with: the wrapper's opening tag and the title heading. */
  function PageHead(title: string): string
  {
    Opening + NL + Heading(title) + NL
  }

  /** What every page ends with: the call to action and the wrapper's end tag. */
  function PageTail(title: string): string
  {
    NL + CallToAction(title) + NL + Closing
  }

  /** `html` begins with `head` and ends with `tail`, and the two do not overlap. */
  predicate Framed(html: string, head: string, tail: string)
  {
    |head| + |tail| <= |html| && html[..|head|] == head && html[|html| - |tail|..] == tail
  }

  /** The page always opens with the wrapper and the unescaped title heading,
      and closes with the call to action and the wrapper's end tag. */
  lemma HtmlFrame(t: string, raw: string)
    ensures Framed(BuildDummyHtml(t, raw), PageHead(t), PageTail(t))
  {
    PageFrame(Describe(t, raw));
  }

  lemma PageFrame(d: Description)
    ensures Framed(Trim(Template(d)), PageHead(d.title), PageTail(d.title))
  {
    var h, i, c := Heading(d.title), IntroRow(d.intro), CallToAction(d.title);
    var f, sp := FeaturesBlock(d.bullets), SpecsBlock(d.specs);
    var head := Opening + NL + h + NL;
    var mid := i + NL + Margin + f + NL + Margin + sp;
    var tail := NL + c + NL + Closing;
    assert Trim(Template(d)) == head + mid + tail by {
      TrimTemplate(d);
      assert Template(d) == NL + (head + mid + tail) by {
        assert Template(d) == NL + Opening + NL + h + NL + i + NL + Margin + f + NL + Margin + sp + NL + c + NL + Closing;
        RegroupFrame(NL, Opening, h, i, Margin, f, sp, c, Closing);
      }
      assert (NL + (head + mid + tail))[1..] == head + mid + tail;
    }
    FramedConcat(head, mid, tail);
  }

  lemma FramedConcat(head: string, mid: string, tail: string)
    ensures Framed(head + mid + tail, head, tail)
  {
    var html := head + mid + tail;
    assert html[..|head|] == head;
    assert html[|html| - |tail|..] == tail;
  }

  /** Every row of the layout is free of line feeds when the title is. */
  lemma LayoutRowsSingleLine(t: string, raw: string)
    requires '\n' !in t
    ensures NoNewline(Layout(Describe(t, raw)))
  {
    var d := Describe(t, raw);
    DescriptionSingleLine(t, raw);
    RowsSingleLine(d);
  }

  lemma DescriptionSingleLine(t: string, raw: string)
    requires '\n' !in t
    ensures var d := Describe(t, raw);
      '\n' !in d.intro && NoNewline(d.bullets) && NoNewline(d.specs)
  {
    var lines := Lines(raw);
    var promoted := Promoted(lines);
    LinesShape(raw);
    IntroSingleLine(t, lines);
    BulletLinesMembers(lines);
    FeatureItemsSingleLine(promoted, lines);
    UnpromotedMembers(lines, promoted);
    var rest := Unpromoted(lines, promoted);
    assert NoNewline(rest) by {
      forall i | 0 <= i < |rest| ensures '\n' !in rest[i] {
        assert rest[i] in rest;
      }
    }
    SpecEntriesSingleLine(rest);
  }

  lemma IntroSingleLine(t: string, lines: seq<string>)
    requires '\n' !in t && NoNewline(lines)
    ensures '\n' !in Intro(t, lines)
  {
    if !(|lines| > 0 && lines[0] != [] && ':' !in lines[0] && '*' !in lines[0] && '-' !in lines[0]) {
      EntrySingleLine2("Discover the ", t, " crafted for modern needs.");
    } else {
      assert lines[0] in lines;
    }
  }

  lemma FeatureItemsSingleLine(promoted: seq<string>, lines: seq<string>)
    requires NoNewline(lines) && forall l :: l in promoted ==> l in lines
    ensures NoNewline(FeatureItems(promoted))
  {
    forall x | x in FeatureItems(promoted) ensures '\n' !in x {
      var i :| 0 <= i < |promoted| && x == FeatureItems(promoted)[i];
      var l := promoted[i];
      assert l in lines;
      if IsBullet(l) {
        var m := l[1..];
        assert TrimStart(m) == m[|m| - |TrimStart(m)|..];
      }
      EntrySingleLine2("<li>", StripMarker(l), "</li>");
    }
  }

  lemma EntrySingleLine2(a: string, b: string, c: string)
    requires '\n' !in a && '\n' !in b && '\n' !in c
    ensures '\n' !in a + b + c
  {
  }

  lemma RowsSingleLine(d: Description)
    requires '\n' !in d.title && '\n' !in d.intro && NoNewline(d.bullets) && NoNewline(d.specs)
    ensures NoNewline(Layout(d))
  {
    var top := [Opening, Heading(d.title), IntroRow(d.intro)];
    var bottom := [CallToAction(d.title), Closing];
    assert NoNewline(top) by {
      EntrySingleLine2(Margin + "<h2>", d.title, "</h2>");
      EntrySingleLine2(Margin + "<p>", d.intro, "</p>");
    }
    assert NoNewline(bottom) by {
      assert '\n' !in CtaLead by {
        EntrySingleLine2("<p class=\"cta\">", "Upgrade your ", "experience ");
        EntrySingleLine2("<p class=\"cta\">" + "Upgrade your " + "experience ", "with the ", []);
      }
      EntrySingleLine2(Margin + CtaLead, d.title, " today.</p>");
    }
    FeatureRowsSingleLine(d.bullets);
    SpecRowsSingleLine(d.specs);
    NoNewlineAppend(top, FeatureRows(d.bullets));
    NoNewlineAppend(top + FeatureRows(d.bullets), SpecRows(d.specs));
    NoNewlineAppend(top + FeatureRows(d.bullets) + SpecRows(d.specs), bottom);
  }

  lemma NoNewlineAppend(a: seq<string>, b: seq<string>)
    requires NoNewline(a) && NoNewline(b)
    ensures NoNewline(a + b)
  {
  }

  lemma IndentedSingleLine(items: seq<string>, margin: string)
    requires NoNewline(items) && '\n' !in margin
    ensures NoNewline(Indented(items, margin))
  {
    forall x | x in Indented(items, margin) ensures '\n' !in x {
      var i :| 0 <= i < |items| && x == Indented(items, margin)[i];
      assert items[i] in items;
    }
  }

  lemma FeatureRowsSingleLine(bullets: seq<string>)
    requires NoNewline(bullets)
    ensures NoNewline(FeatureRows(bullets))
  {
    if |bullets| > 0 {
      IndentedSingleLine(bullets, ItemMargin);
      NoNewlineAppend([Margin + FeaturesOpen], Indented(bullets, ItemMargin));
      NoNewlineAppend([Margin + FeaturesOpen] + Indented(bullets, ItemMargin), [Margin + ListClose]);
    }
  }

  lemma SpecRowsSingleLine(specs: seq<string>)
    requires NoNewline(specs)
    ensures NoNewline(SpecRows(specs))
  {
    if |specs| > 0 {
      IndentedSingleLine(specs, ItemMargin);
      NoNewlineAppend([Margin + SpecsHeading, Margin + SpecsOpen], Indented(specs, ItemMargin));
      NoNewlineAppend([Margin + SpecsHeading, Margin + SpecsOpen] + Indented(specs, ItemMargin), [Margin + ListClose]);
    }
  }

  lemma {:induction false} SpecEntriesSingleLine(candidates: seq<string>)
    requires NoNewline(candidates)
    ensures NoNewline(SpecEntries(candidates))
  {
    if candidates != [] {
      var l := candidates[0];
      if ':' in l {
        SpecEntrySingleLine(l);
      }
      assert NoNewline(candidates[1..]) by {
        forall x | x in candidates[1..] ensures '\n' !in x { assert x in candidates; }
      }
      SpecEntriesSingleLine(candidates[1..]);
    }
  }

  lemma SpecEntrySingleLine(l: string)
    requires '\n' !in l && ':' in l
    ensures '\n' !in SpecEntry(l)
  {
    var j :| 0 <= j < |l| && l[j] == ':';
    var i := FirstIndex(l, ':', j);
    var key, value := l[..i], l[i + 1..];
    SpecEntryParts(l, i);
    TrimKeepsOut(key, '\n');
    TrimKeepsOut(value, '\n');
    EntrySingleLine(Trim(key), Trim(value));
  }

  lemma EntrySingleLine(key: string, value: string)
    requires '\n' !in key && '\n' !in value
    ensures '\n' !in "<li><strong>" + key + ":</strong> " + value + "</li>"
  {
  }

  /** Read back line by line, the page is exactly its layout: the wrapper, the
      heading, the intro, then one row per feature bullet inside the features
      list (or a blank row), then the Key Details heading and one row per
      specification (or a blank row), then the call to action and the end tag. */
  lemma HtmlRows(t: string, raw: string)
    requires '\n' !in t
    ensures SplitOn(BuildDummyHtml(t, raw), '\n') == Layout(Describe(t, raw))
  {
    var d := Describe(t, raw);
    DescriptionSingleLine(t, raw);
    PageRows(d);
  }

  lemma PageRows(d: Description)
    requires '\n' !in d.title && '\n' !in d.intro && NoNewline(d.bullets) && NoNewline(d.specs)
    ensures SplitOn(Trim(Template(d)), '\n') == Layout(d)
  {
    TrimTemplate(d);
    TemplateRows(d);
    RowsSingleLine(d);
    assert (NL + Join(Layout(d), NL))[1..] == Join(Layout(d), NL);
    SplitJoin(Layout(d), '\n');
  }

  // ---------------------------------------------------------------------------
  // A typical input

  /** A line the renderer keeps whole: non-empty, trimmed and on one line. */
  predicate Item(x: string) {
    x != [] && Trimmed(x) && '\n' !in x
  }

  /** An intro sentence, two dash bullets and one `key: value` line (the shape
      of the Lumen Mirror example) become exactly that intro, two features and
      one specification entry. */
  lemma TypicalInput(t: string, intro: string, x1: string, x2: string, key: string, value: string)
    requires Item(intro) && ':' !in intro && '*' !in intro && '-' !in intro
    requires Item(x1) && Item(x2)
    requires Item(key) && ':' !in key && key[0] != '*' && key[0] != '-'
    requires Item(value)
    ensures Describe(t, intro + "\n- " + x1 + "\n- " + x2 + "\n" + key + ": " + value)
         == Description(t, intro, ["<li>" + x1 + "</li>", "<li>" + x2 + "</li>"],
                        ["<li><strong>" + key + ":</strong> " + value + "</li>"])
  {
    var raw := intro + "\n- " + x1 + "\n- " + x2 + "\n" + key + ": " + value;
    var lines := [intro, "- " + x1, "- " + x2, key + ": " + value];
    TypicalLines(intro, x1, x2, key, value);
    TypicalClassification(t, intro, x1, x2, key, value);
    assert Describe(t, raw) == Description(t, Intro(t, lines), FeatureItems(Promoted(lines)),
                                          SpecEntries(Unpromoted(lines, Promoted(lines))));
  }

  lemma TypicalLines(intro: string, x1: string, x2: string, key: string, value: string)
    requires Item(intro) && Item(x1) && Item(x2) && Item(key) && Item(value)
    ensures Lines(intro + "\n- " + x1 + "\n- " + x2 + "\n" + key + ": " + value)
         == [intro, "- " + x1, "- " + x2, key + ": " + value]
  {
    var b1, b2, sp := "- " + x1, "- " + x2, key + ": " + value;
    TypicalRaw(intro, x1, x2, key, value);
    OneItem(intro);
    BulletItem(x1);
    BulletItem(x2);
    SpecItem(key, value);
    FourLines(intro, b1, b2, sp);
  }

  lemma FourLines(a: string, b: string, c: string, d: string)
    requires Lines(a) == [a] && Lines(b) == [b] && Lines(c) == [c] && Lines(d) == [d]
    ensures Lines(a + "\n" + (b + "\n" + (c + "\n" + d))) == [a, b, c, d]
  {
    LinesOfJoin(c, d);
    LinesOfJoin(b, c + "\n" + d);
    LinesOfJoin(a, b + "\n" + (c + "\n" + d));
  }

  lemma TypicalClassification(t: string, intro: string, x1: string, x2: string, key: string, value: string)
    requires Item(intro) && ':' !in intro && '*' !in intro && '-' !in intro
    requires Item(x1) && Item(x2)
    requires Item(key) && ':' !in key && key[0] != '*' && key[0] != '-'
    requires Item(value)
    ensures
      var lines := [intro, "- " + x1, "- " + x2, key + ": " + value];
      && Intro(t, lines) == intro
      && FeatureItems(Promoted(lines)) == ["<li>" + x1 + "</li>", "<li>" + x2 + "</li>"]
      && SpecEntries(Unpromoted(lines, Promoted(lines))) == ["<li><strong>" + key + ":</strong> " + value + "</li>"]
  {
    var b1, b2, sp := "- " + x1, "- " + x2, key + ": " + value;
    assert IsBullet(b1) && IsBullet(b2) && !IsBullet(intro) && !IsBullet(sp);
    ClassifyFour(intro, b1, b2, sp);
    TypicalFeatures(intro, x1, x2, sp);
    TypicalSpecs(intro, x1, x2, key, value);
  }

  lemma TypicalFeatures(intro: string, x1: string, x2: string, sp: string)
    requires Item(x1) && Item(x2)
    requires BulletLines([intro, "- " + x1, "- " + x2, sp]) == ["- " + x1, "- " + x2]
    ensures FeatureItems(Promoted([intro, "- " + x1, "- " + x2, sp])) == ["<li>" + x1 + "</li>", "<li>" + x2 + "</li>"]
  {
    StripDash(x1);
    StripDash(x2);
  }

  lemma TypicalSpecs(intro: string, x1: string, x2: string, key: string, value: string)
    requires ':' !in intro && Item(key) && ':' !in key && Item(value)
    requires var lines := [intro, "- " + x1, "- " + x2, key + ": " + value];
      BulletLines(lines) == ["- " + x1, "- " + x2] && NonBullets(lines) == [intro, key + ": " + value]
    ensures
      var lines := [intro, "- " + x1, "- " + x2, key + ": " + value];
      SpecEntries(Unpromoted(lines, Promoted(lines))) == ["<li><strong>" + key + ":</strong> " + value + "</li>"]
  {
    var lines := [intro, "- " + x1, "- " + x2, key + ": " + value];
    var sp := key + ": " + value;
    UnpromotedIsClassification(lines);
    SpecEntriesAppend([intro], [sp]);
    assert [intro] + [sp] == [intro, sp];
    SpecEntriesOfOne(intro);
    SpecEntriesOfOne(sp);
    SpecLine(key, value);
  }

  lemma ClassifyFour(intro: string, b1: string, b2: string, sp: string)
    requires IsBullet(b1) && IsBullet(b2) && !IsBullet(intro) && !IsBullet(sp)
    ensures BulletLines([intro, b1, b2, sp]) == [b1, b2]
    ensures NonBullets([intro, b1, b2, sp]) == [intro, sp]
  {
    assert [sp][1..] == [];
    assert [b2, sp][1..] == [sp];
    assert [b1, b2, sp][1..] == [b2, sp];
    assert [intro, b1, b2, sp][1..] == [b1, b2, sp];
    assert BulletLines([sp]) == [] && NonBullets([sp]) == [sp];
    assert BulletLines([b2, sp]) == [b2] && NonBullets([b2, sp]) == [sp];
    assert BulletLines([b1, b2, sp]) == [b1, b2] && NonBullets([b1, b2, sp]) == [sp];
  }

  lemma StripDash(x: string)
    requires Item(x)
    ensures StripMarker("- " + x) == x
  {
    assert AllWs(" ");
    StripMarkerOfBullet('-', " ", x);
    assert ['-'] + " " + x == "- " + x;
  }

  lemma TypicalRaw(intro: string, x1: string, x2: string, key: string, value: string)
    ensures intro + "\n- " + x1 + "\n- " + x2 + "\n" + key + ": " + value
         == intro + "\n" + (("- " + x1) + "\n" + (("- " + x2) + "\n" + (key + ": " + value)))
  {
  }

  lemma OneItem(x: string)
    requires Item(x)
    ensures Lines(x) == [x]
  {
    LinesOfOneLine(x);
    TrimOfTrimmed(x);
    assert !IsWs(x[0]);
  }

  lemma BulletItem(x: string)
    requires Item(x)
    ensures Lines("- " + x) == ["- " + x]
  {
    var l := "- " + x;
    assert l[0] == '-' && l[|l| - 1] == x[|x| - 1];
    assert '\n' !in l by {
      EntrySingleLine2("- ", x, []);
      assert "- " + x + [] == l;
    }
    OneItem(l);
  }

  lemma SpecItem(key: string, value: string)
    requires Item(key) && Item(value)
    ensures Lines(key + ": " + value) == [key + ": " + value]
  {
    var l := key + ": " + value;
    assert l[0] == key[0] && l[|l| - 1] == value[|value| - 1];
    EntrySingleLine2(key, ": ", value);
    OneItem(l);
  }

  lemma SpecLine(key: string, value: string)
    requires Item(key) && ':' !in key && Item(value)
    ensures SpecEntry(key + ": " + value) == "<li><strong>" + key + ":</strong> " + value + "</li>"
  {
    var l := key + ": " + value;
    var i := |key|;
    assert l[..i] == key && l[i] == ':' && l[i + 1..] == " " + value;
    SpecEntryParts(l, i);
    TrimOfTrimmed(key);
    TrimAfterSpace(value);
  }

  lemma TrimAfterSpace(value: string)
    requires Item(value)
    ensures Trim(" " + value) == value
  {
    assert AllWs(" ") && AllWs([]);
    TrimPadded(" ", value, []);
    assert " " + value + [] == " " + value;
    TrimOfTrimmed(value);
  }

  /** The worked example: a mirror with an intro, two features and a weight. */
  lemma LumenMirror()
    ensures
      var raw := "A sleek mirror for modern homes." + "\n- " + "LED backlight" + "\n- " + "Shatterproof glass" + "\n" + "Weight" + ": " + "4kg";
      Describe("Lumen Mirror", raw)
        == Description("Lumen Mirror", "A sleek mirror for modern homes.",
                       ["<li>" + "LED backlight" + "</li>", "<li>" + "Shatterproof glass" + "</li>"],
                       ["<li><strong>" + "Weight" + ":</strong> " + "4kg" + "</li>"])
  {
    MirrorItems();
    TypicalInput("Lumen Mirror", "A sleek mirror for modern homes.", "LED backlight", "Shatterproof glass", "Weight", "4kg");
  }

  lemma MirrorItems()
    ensures Item("A sleek mirror for modern homes.")
    ensures var intro := "A sleek mirror for modern homes.";
      ':' !in intro && '*' !in intro && '-' !in intro
    ensures Item("LED backlight") && Item("Shatterproof glass")
    ensures Item("Weight") && ':' !in "Weight" && Item("4kg")
  {
    MirrorIntro();
    assert Item("LED backlight") by { }
    assert Item("Shatterproof glass") by { }
    assert Item("Weight") && ':' !in "Weight" by { }
    assert Item("4kg") by { }
  }

  lemma MirrorIntro()
    ensures Item("A sleek mirror for modern homes.")
    ensures var intro := "A sleek mirror for modern homes.";
      ':' !in intro && '*' !in intro && '-' !in intro
  {
    var a, b := "A sleek mirror ", "for modern homes.";
    assert "A sleek mirror for modern homes." == a + b;
    PlainFirst();
    PlainSecond();
  }

  lemma PlainFirst()
    ensures var a := "A sleek mirror ";
      '\n' !in a && ':' !in a && '*' !in a && '-' !in a
  {
  }

  lemma PlainSecond()
    ensures var b := "for modern homes.";
      '\n' !in b && ':' !in b && '*' !in b && '-' !in b
  {
  }
}
