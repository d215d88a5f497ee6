/**
 * The evaluation text in the layout the evaluation prompt asks for, and the
 * proof that `parseEvaluation` reads every field of such a text back.
 */
module EvaluationFormat {
  import opened Text
  import opened Model
  import opened EvaluationParser

  // ---------------------------------------------------------------------------
  // Facts about the section names

  /** Section names are single words: no line feed, no colon, and a
      non-blank first character. */
  lemma MarkerShape(p: Pattern, lang: Language)
    ensures var m := Marker(p, lang);
            m != [] && '\n' !in m && ':' !in m && !IsWhitespace(m[0])
  {
    match p
    case Score => MarkerCharsPlain(Marker(p, lang));
    case Strengths => MarkerCharsPlain(Marker(p, lang));
    case Weaknesses => MarkerCharsPlain(Marker(p, lang));
    case Recommendations => MarkerCharsPlain(Marker(p, lang));
    case Feedback => MarkerCharsPlain(Marker(p, lang));
  }

  /** Upper-case letters (Turkish ones included) and the underscore. */
  predicate MarkerChar(c: char) {
    ('A' <= c <= 'Z') || c == '_' || c == 'Ü' || c == 'Ç' || c == 'Ö' || c == 'İ'
  }

  lemma MarkerCharsPlain(m: string)
    requires m != [] && forall i :: 0 <= i < |m| ==> MarkerChar(m[i])
    ensures '\n' !in m && ':' !in m && !IsWhitespace(m[0])
  {
  }

  predicate IsSuffix(a: string, b: string) {
    |a| <= |b| && b[|b| - |a|..] == a
  }

  lemma SuffixDiffers(a: string, b: string, i: nat)
    ensures i < |a| && i < |b| && a[|a| - 1 - i] != b[|b| - 1 - i] ==> !IsSuffix(a, b)
  {
    if i < |a| && i < |b| && IsSuffix(a, b) {
      assert b[|b| - |a|..][|a| - 1 - i] == b[|b| - 1 - i];
    }
  }

  /** No section name ends with the name of another section, so a header can
      only be found where a section really starts. */
  lemma NoMarkerIsSuffix(p: Pattern, l1: Language, q: Pattern, l2: Language)
    requires p != q
    ensures !IsSuffix(Marker(p, l1), Marker(q, l2))
  {
    match (l1, l2)
    case (English, English) => NoEnglishSuffixOfEnglish(p, q);
    case (English, Turkish) => NoEnglishSuffixOfTurkish(p, q);
    case (Turkish, English) => NoTurkishSuffixOfEnglish(p, q);
    case (Turkish, Turkish) => NoTurkishSuffixOfTurkish(p, q);
  }

  lemma NoEnglishSuffixOfEnglish(p: Pattern, q: Pattern)
    requires p != q
    ensures !IsSuffix(Marker(p, English), Marker(q, English))
  {
    var a, b := Marker(p, English), Marker(q, English);
    SuffixDiffers(a, b, 0);
    SuffixDiffers(a, b, 1);
    SuffixDiffers(a, b, 3);
    SuffixDiffers(a, b, 11);
  }

  lemma NoEnglishSuffixOfTurkish(p: Pattern, q: Pattern)
    requires p != q
    ensures !IsSuffix(Marker(p, English), Marker(q, Turkish))
  {
    var a, b := Marker(p, English), Marker(q, Turkish);
    SuffixDiffers(a, b, 0);
    SuffixDiffers(a, b, 1);
    SuffixDiffers(a, b, 3);
    SuffixDiffers(a, b, 11);
  }

  lemma NoTurkishSuffixOfEnglish(p: Pattern, q: Pattern)
    requires p != q
    ensures !IsSuffix(Marker(p, Turkish), Marker(q, English))
  {
    var a, b := Marker(p, Turkish), Marker(q, English);
    SuffixDiffers(a, b, 0);
    SuffixDiffers(a, b, 1);
    SuffixDiffers(a, b, 3);
    SuffixDiffers(a, b, 11);
  }

  lemma NoTurkishSuffixOfTurkish(p: Pattern, q: Pattern)
    requires p != q
    ensures !IsSuffix(Marker(p, Turkish), Marker(q, Turkish))
  {
    var a, b := Marker(p, Turkish), Marker(q, Turkish);
    SuffixDiffers(a, b, 0);
    SuffixDiffers(a, b, 1);
    SuffixDiffers(a, b, 3);
    SuffixDiffers(a, b, 11);
  }

  /** A header written at position `|pre|` is found there, whichever language
      it is in (the English name is tried first, and it never matches where
      the Turkish one starts). */
  lemma HeaderFound(p: Pattern, lang: Language, pre: string, rest: string)
    ensures HeaderEnd(p, pre + Header(p, lang) + rest, |pre|) == Some(|pre| + |Header(p, lang)|)
  {
    var text := pre + Header(p, lang) + rest;
    var h := Header(p, lang);
    assert text[|pre|..|pre| + |h|] == h;
    if lang == Turkish {
      var d := HeadersDiffer(p);
      NotInfixAtDiffering(Header(p, English), h, pre, rest, d);
    }
  }

  /** The English and the Turkish header of a section differ at some
      position both have. */
  lemma HeadersDiffer(p: Pattern) returns (d: nat)
    ensures d < |Header(p, English)| && d < |Header(p, Turkish)|
    ensures Header(p, English)[d] != Header(p, Turkish)[d]
  {
    d := if p == Feedback then 4 else 0;
  }

  /** A string that differs from `h` at position `d` does not occur where `h` does. */
  lemma NotInfixAtDiffering(e: string, h: string, pre: string, rest: string, d: nat)
    requires d < |e| && d < |h| && e[d] != h[d]
    ensures !InfixAt(e, pre + h + rest, |pre|)
  {
    var text := pre + h + rest;
    assert text[|pre| + d] == h[d];
    if |pre| + |e| <= |text| {
      assert text[|pre|..|pre| + |e|][d] != e[d];
    }
  }

  /** Inside a section `m0 + ":" + body` whose body holds no colon and ends
      with a newline, `m + ":"` can only start where `m` would be a suffix of `m0`. */
  lemma NoHeaderInChunk(m: string, m0: string, pre: string, body: string, post: string, k: nat)
    requires '\n' !in m && ':' !in m0 && !IsSuffix(m, m0)
    requires ':' !in body && body != [] && body[|body| - 1] == '\n'
    requires |pre| <= k < |pre| + |m0| + 1 + |body|
    ensures !InfixAt(m + ":", pre + (m0 + ":") + body + post, k)
  {
    var text := pre + (m0 + ":") + body + post;
    var h := m + ":";
    var colon := |pre| + |m0|;
    var c := colon + 1 + |body|;
    if k + |h| <= |text| {
      var e := k + |h| - 1;
      if e < c {
        if e < colon {
          assert text[e] == m0[e - |pre|];
          assert text[k..k + |h|][|h| - 1] != h[|h| - 1];
        } else if e > colon {
          assert text[e] == body[e - colon - 1];
          assert text[k..k + |h|][|h| - 1] != h[|h| - 1];
        } else {
          assert text[k..e] == m0[|m0| - |m|..] by {
            forall i | 0 <= i < |m| ensures text[k..e][i] == m0[|m0| - |m|..][i] {
              assert text[k + i] == m0[k + i - |pre|];
            }
          }
          assert h[..|m|] == m;
          assert text[k..k + |h|][..|m|] == text[k..e];
        }
      } else {
        assert text[c - 1] == '\n';
        if c - 1 < e {
          assert h[c - 1 - k] == m[c - 1 - k];
        }
        assert text[k..k + |h|][c - 1 - k] != h[c - 1 - k];
      }
    }
  }

  /** No header of pattern `p` starts inside a section of another pattern `q`. */
  lemma NoHeaderInSection(p: Pattern, q: Pattern, text: string, pre: string, lang: Language,
                          body: string, post: string)
    requires text == pre + Header(q, lang) + body + post
    requires p != q
    requires ':' !in body && body != [] && body[|body| - 1] == '\n'
    ensures forall k :: |pre| <= k < |pre| + |Header(q, lang)| + |body| ==> MatchAt(p, text, k).None?
  {
    MarkerShape(p, English);
    MarkerShape(p, Turkish);
    MarkerShape(q, lang);
    NoMarkerIsSuffix(p, English, q, lang);
    NoMarkerIsSuffix(p, Turkish, q, lang);
    forall k | |pre| <= k < |pre| + |Header(q, lang)| + |body|
      ensures MatchAt(p, text, k).None?
    {
      NoHeaderInChunk(Marker(p, English), Marker(q, lang), pre, body, post, k);
      NoHeaderInChunk(Marker(p, Turkish), Marker(q, lang), pre, body, post, k);
    }
  }

  // ---------------------------------------------------------------------------
  // The layout the evaluation prompt asks for

  function BulletLines(items: seq<string>): (r: seq<string>)
    ensures |r| == |items|
    ensures forall i :: 0 <= i < |r| ==> r[i] == "- " + items[i]
    decreases |items|
  {
    if items == [] then [] else ["- " + items[0]] + BulletLines(items[1..])
  }

  /** A list section's lines: `- item`, one per item. */
  function Bullets(items: seq<string>): string {
    Join(BulletLines(items))
  }

  function ScoreBody(n: nat): string {
    " " + NatToString(n) + "\n\n"
  }

  function ListBody(items: seq<string>): string {
    "\n" + Bullets(items) + "\n\n"
  }

  function FeedbackBody(fb: string): string {
    "\n" + fb
  }

  /** An item the layout can carry: a single trimmed line without a colon. */
  predicate WellFormedItem(item: string) {
    IsTrimmed(item) && '\n' !in item && ':' !in item
  }

  predicate WellFormedList(items: seq<string>) {
    |items| >= 1 && forall i :: 0 <= i < |items| ==> WellFormedItem(items[i])
  }

  /** What the layout can carry: a score that fits in an `Int`, a non-empty
      list per section, and a non-empty trimmed feedback. */
  predicate Renderable(e: InterviewEvaluation) {
    0 <= e.overallScore <= IntMax
    && WellFormedList(e.strengths) && WellFormedList(e.weaknesses)
    && WellFormedList(e.recommendations)
    && e.detailedFeedback != [] && IsTrimmed(e.detailedFeedback)
  }

  /** The evaluation written out as the prompt's format asks, in one language:
      `SCORE: n`, the three bullet sections each closed by a blank line, and
      the feedback last. */
  function RenderEvaluation(e: InterviewEvaluation, lang: Language): string
    requires 0 <= e.overallScore
  {
    Header(Score, lang) + ScoreBody(e.overallScore)
    + (Header(Strengths, lang) + ListBody(e.strengths))
    + (Header(Weaknesses, lang) + ListBody(e.weaknesses))
    + (Header(Recommendations, lang) + ListBody(e.recommendations))
    + (Header(Feedback, lang) + FeedbackBody(e.detailedFeedback))
  }

  // ---------------------------------------------------------------------------
  // Each section is read back where it is written

  lemma {:induction false} BulletsShape(items: seq<string>)
    requires |items| >= 1 && forall i :: 0 <= i < |items| ==> '\n' !in items[i]
    ensures var b := Bullets(items);
            b != [] && b[0] == '-' && b[|b| - 1] != '\n' && NoBlankLine(b)
    ensures (forall i :: 0 <= i < |items| ==> ':' !in items[i]) ==> ':' !in Bullets(items)
    decreases |items|
  {
    var lines := BulletLines(items);
    var l0 := lines[0];
    assert l0 == "- " + items[0];
    if |items| == 1 {
      assert Bullets(items) == l0;
      assert l0[|l0| - 1] != '\n' by {
        if |items[0]| > 0 { assert l0[|l0| - 1] == items[0][|items[0]| - 1]; }
      }
      forall j | 0 <= j < |l0| ensures !BlankLineAt(l0, j) {
        if 1 <= j < |l0| - 1 { assert l0[j + 1] == items[0][j - 1]; }
      }
    } else {
      var tail := items[1..];
      BulletsShape(tail);
      assert lines[1..] == BulletLines(tail);
      var b' := Bullets(tail);
      var b := Bullets(items);
      assert b == l0 + "\n" + b';
      forall j | 0 <= j < |b| ensures !BlankLineAt(b, j) {
        if j < |l0| - 1 {
          if j >= 1 { assert b[j + 1] == items[0][j - 1]; } else { assert b[1] == ' '; }
        } else if j == |l0| - 1 {
          if |items[0]| > 0 { assert b[j] == items[0][|items[0]| - 1]; } else { assert b[j] == ' '; }
        } else if j == |l0| {
          assert b[j + 1] == b'[0];
        } else {
          assert b[j] == b'[j - |l0| - 1];
          if j + 1 < |b| { assert b[j + 1] == b'[j - |l0|]; }
          assert !BlankLineAt(b', j - |l0| - 1);
        }
      }
      assert b[|b| - 1] == b'[|b'| - 1];
      if forall i :: 0 <= i < |items| ==> ':' !in items[i] {
        assert forall i :: 0 <= i < |tail| ==> ':' !in tail[i] by {
          forall i | 0 <= i < |tail| ensures ':' !in tail[i] { assert tail[i] == items[i + 1]; }
        }
        assert ':' !in l0;
      }
    }
  }

  /** After a header, `\n` + lines without a blank one + `\n\n`: the lazy group
      is exactly those lines. */
  lemma LazyGroupIs(text: string, q: nat, b: string, post: string)
    requires q <= |text| && text[q..] == "\n" + b + "\n\n" + post
    requires b != [] && b[0] == '-' && b[|b| - 1] != '\n' && NoBlankLine(b)
    ensures RegexSpaceRun(text[q..]) == 1
    ensures LazySection(text, q, 1) == Some(b)
  {
    assert text[q..] == "\n" + (b + "\n\n" + post);
    RegexSpaceRunOf("\n", b + "\n\n" + post);
    assert text[q] == '\n';
    var g := q + 1;
    var j := g + |b|;
    assert text[g..j] == b by {
      forall i | 0 <= i < |b| ensures text[g + i] == b[i] {
        assert text[g + i] == text[q..][1 + i];
      }
    }
    assert BlankLineAt(text, j) by {
      assert text[j] == text[q..][1 + |b|];
      assert text[j + 1] == text[q..][2 + |b|];
    }
    forall i | g <= i < j ensures !BlankLineAt(text, i) {
      assert text[i] == b[i - g];
      if i + 1 < j {
        assert text[i + 1] == b[i + 1 - g];
        assert !BlankLineAt(b, i - g);
      }
    }
    assert FirstBlankLine(text, g) == Some(j);
  }

  /** A bullet section is captured up to the blank line that closes it. */
  lemma ListSectionMatches(p: Pattern, lang: Language, items: seq<string>, text: string, pre: string, post: string)
    requires text == pre + Header(p, lang) + ListBody(items) + post
    requires p != Score && p != Feedback
    requires |items| >= 1 && forall i :: 0 <= i < |items| ==> '\n' !in items[i]
    ensures MatchAt(p, text, |pre|) == Some(Bullets(items))
  {
    var h := Header(p, lang);
    var b := Bullets(items);
    BulletsShape(items);
    assert text == pre + h + (ListBody(items) + post);
    HeaderFound(p, lang, pre, ListBody(items) + post);
    var q := |pre| + |h|;
    assert text[q..] == "\n" + b + "\n\n" + post;
    LazyGroupIs(text, q, b, post);
  }

  /** After a header, one space and a digit run ended by a newline: the
      score group is that digit run. */
  lemma ScoreGroupIs(text: string, q: nat, ds: string, post: string)
    requires q <= |text| && text[q..] == " " + ds + "\n\n" + post
    requires ds != [] && AllDigits(ds)
    ensures ScoreDigits(text, q) == Some(ds)
  {
    assert text[q..] == " " + (ds + ("\n\n" + post));
    RegexSpaceRunOf(" ", ds + ("\n\n" + post));
    assert text[q..][1..] == ds + ("\n\n" + post);
    assert text[q + 1..] == ds + ("\n\n" + post);
    DigitRunOf(ds, "\n\n" + post);
    assert text[q + 1..q + 1 + |ds|] == ds;
  }

  /** The score line yields its digits. */
  lemma ScoreSectionMatches(lang: Language, n: nat, post: string)
    ensures MatchAt(Score, Header(Score, lang) + ScoreBody(n) + post, 0) == Some(NatToString(n))
  {
    var h := Header(Score, lang);
    var text := h + ScoreBody(n) + post;
    assert text == [] + h + (ScoreBody(n) + post);
    HeaderFound(Score, lang, [], ScoreBody(n) + post);
    assert text[|h|..] == " " + NatToString(n) + "\n\n" + post;
    ScoreGroupIs(text, |h|, NatToString(n), post);
  }

  /** The feedback section yields everything after its header line. */
  lemma FeedbackSectionMatches(lang: Language, fb: string, pre: string)
    requires fb != [] && !IsWhitespace(fb[0])
    ensures MatchAt(Feedback, pre + Header(Feedback, lang) + FeedbackBody(fb), |pre|) == Some(fb)
  {
    var h := Header(Feedback, lang);
    var text := pre + h + FeedbackBody(fb);
    assert text == pre + h + (FeedbackBody(fb) + []);
    HeaderFound(Feedback, lang, pre, FeedbackBody(fb) + []);
    var q := |pre| + |h|;
    assert text[q..] == "\n" + fb;
    FeedbackGroup(text, q, fb);
  }

  /** After the colon: one newline, then the feedback, all captured. */
  lemma FeedbackGroup(text: string, q: nat, fb: string)
    requires q <= |text| && text[q..] == "\n" + fb
    requires fb != [] && !IsWhitespace(fb[0])
    ensures GroupAfter(Feedback, text, q) == Some(fb)
  {
    RegexSpaceIsWhitespace(fb[0]);
    RegexSpaceRunOf("\n", fb);
    SuffixParts(text, q, "\n", fb);
    assert GreedySection(text, q, 1) == Some(text[q + 1..]);
  }

  /** `- item` is a bullet, and the item comes back out of it. */
  lemma BulletItemRoundTrip(item: string)
    requires IsTrimmed(item)
    ensures StartsWith(Trim("- " + item), "-")
    ensures Trim(Trim("- " + item)[1..]) == item
  {
    var line := "- " + item;
    if item == [] {
      TrimUnique([], "-", " ");
      assert [] + "-" + " " == line;
      assert "-"[1..] == [];
      TrimUnique([], [], []);
    } else {
      assert line[|line| - 1] == item[|item| - 1];
      TrimUnique([], line, []);
      assert [] + line + [] == line;
      assert line[1..] == " " + item;
      TrimUnique(" ", item, []);
      assert " " + item + [] == " " + item;
    }
  }

  lemma {:induction false} ItemsOfBulletLines(items: seq<string>)
    requires forall i :: 0 <= i < |items| ==> IsTrimmed(items[i])
    ensures BulletItems(BulletLines(items)) == items
    decreases |items|
  {
    if items != [] {
      var lines := BulletLines(items);
      assert lines[1..] == BulletLines(items[1..]);
      assert BulletItems(lines) == [items[0]] + BulletItems(lines[1..]) by {
        BulletItemRoundTrip(items[0]);
        BulletItemsOfBullet(lines);
      }
      ItemsOfBulletLines(items[1..]);
      assert items == [items[0]] + items[1..];
    }
  }

  /** A first line that is a bullet contributes its item. */
  lemma BulletItemsOfBullet(lines: seq<string>)
    requires lines != [] && StartsWith(Trim(lines[0]), "-")
    ensures BulletItems(lines) == [Trim(Trim(lines[0])[1..])] + BulletItems(lines[1..])
  {
  }

  /** A written list section reads back as the same items. */
  lemma SectionItemsOfBullets(items: seq<string>)
    requires WellFormedList(items)
    ensures SectionItems(Some(Bullets(items))) == items
  {
    var lines := BulletLines(items);
    forall k | 0 <= k < |lines| ensures '\n' !in lines[k] {
      assert lines[k] == "- " + items[k];
    }
    SplitJoin(lines);
    ItemsOfBulletLines(items);
  }

  /** A match at `s` with none before it is the one `find` returns. */
  lemma FindIs(p: Pattern, text: string, s: nat)
    requires s <= |text|
    requires forall k :: 0 <= k < s ==> MatchAt(p, text, k).None?
    requires MatchAt(p, text, s).Some?
    ensures Find(p, text) == MatchAt(p, text, s)
  {
    assert FindFrom(p, text, 0) == Some(s);
  }

  /** The five sections of a layout, each seen as `before + header + body + after`. */
  lemma Layout(h0: string, b0: string, h1: string, b1: string, h2: string, b2: string,
               h3: string, b3: string, h4: string, b4: string)
    ensures var t := h0 + b0 + (h1 + b1) + (h2 + b2) + (h3 + b3) + (h4 + b4);
            && t == [] + h0 + b0 + ((h1 + b1) + (h2 + b2) + (h3 + b3) + (h4 + b4))
            && t == h0 + b0 + ((h1 + b1) + (h2 + b2) + (h3 + b3) + (h4 + b4))
            && t == (h0 + b0) + h1 + b1 + ((h2 + b2) + (h3 + b3) + (h4 + b4))
            && t == (h0 + b0) + (h1 + b1) + h2 + b2 + ((h3 + b3) + (h4 + b4))
            && t == (h0 + b0) + (h1 + b1) + (h2 + b2) + h3 + b3 + (h4 + b4)
  {
  }

  /** The bodies of the score and list sections hold no colon and end with a newline. */
  lemma BodiesShape(e: InterviewEvaluation)
    requires Renderable(e)
    ensures var b := ScoreBody(e.overallScore); ':' !in b && b[|b| - 1] == '\n'
    ensures var b := ListBody(e.strengths); ':' !in b && b[|b| - 1] == '\n'
    ensures var b := ListBody(e.weaknesses); ':' !in b && b[|b| - 1] == '\n'
    ensures var b := ListBody(e.recommendations); ':' !in b && b[|b| - 1] == '\n'
  {
    BulletsShape(e.strengths);
    BulletsShape(e.weaknesses);
    BulletsShape(e.recommendations);
  }

  lemma ScoreFound(e: InterviewEvaluation, lang: Language)
    requires Renderable(e)
    ensures Find(Score, RenderEvaluation(e, lang)) == Some(NatToString(e.overallScore))
  {
    var h0, h1, h2, h3, h4 :=
      Header(Score, lang), Header(Strengths, lang), Header(Weaknesses, lang),
      Header(Recommendations, lang), Header(Feedback, lang);
    var b0, b1, b2, b3, b4 :=
      ScoreBody(e.overallScore), ListBody(e.strengths), ListBody(e.weaknesses),
      ListBody(e.recommendations), FeedbackBody(e.detailedFeedback);
    var text := RenderEvaluation(e, lang);
    Layout(h0, b0, h1, b1, h2, b2, h3, b3, h4, b4);
    ScoreSectionMatches(lang, e.overallScore, (h1 + b1) + (h2 + b2) + (h3 + b3) + (h4 + b4));
    FindIs(Score, text, 0);
  }

  lemma StrengthsFound(e: InterviewEvaluation, lang: Language)
    requires Renderable(e)
    ensures Find(Strengths, RenderEvaluation(e, lang)) == Some(Bullets(e.strengths))
  {
    var h0, h1, h2, h3, h4 :=
      Header(Score, lang), Header(Strengths, lang), Header(Weaknesses, lang),
      Header(Recommendations, lang), Header(Feedback, lang);
    var b0, b1, b2, b3, b4 :=
      ScoreBody(e.overallScore), ListBody(e.strengths), ListBody(e.weaknesses),
      ListBody(e.recommendations), FeedbackBody(e.detailedFeedback);
    var text := RenderEvaluation(e, lang);
    Layout(h0, b0, h1, b1, h2, b2, h3, b3, h4, b4);
    BodiesShape(e);
    NoHeaderInSection(Strengths, Score, text, [], lang, b0, (h1 + b1) + (h2 + b2) + (h3 + b3) + (h4 + b4));
    ListSectionMatches(Strengths, lang, e.strengths, text, h0 + b0, (h2 + b2) + (h3 + b3) + (h4 + b4));
    FindIs(Strengths, text, |h0 + b0|);
  }

  lemma WeaknessesFound(e: InterviewEvaluation, lang: Language)
    requires Renderable(e)
    ensures Find(Weaknesses, RenderEvaluation(e, lang)) == Some(Bullets(e.weaknesses))
  {
    var h0, h1, h2, h3, h4 :=
      Header(Score, lang), Header(Strengths, lang), Header(Weaknesses, lang),
      Header(Recommendations, lang), Header(Feedback, lang);
    var b0, b1, b2, b3, b4 :=
      ScoreBody(e.overallScore), ListBody(e.strengths), ListBody(e.weaknesses),
      ListBody(e.recommendations), FeedbackBody(e.detailedFeedback);
    var text := RenderEvaluation(e, lang);
    Layout(h0, b0, h1, b1, h2, b2, h3, b3, h4, b4);
    BodiesShape(e);
    NoMatchInTwo(Weaknesses, Score, Strengths, lang, text, b0, b1, h2 + b2, h3 + b3, h4 + b4);
    ListFound(Weaknesses, lang, e.weaknesses, text, (h0 + b0) + (h1 + b1), (h3 + b3) + (h4 + b4));
  }

  lemma RecommendationsFound(e: InterviewEvaluation, lang: Language)
    requires Renderable(e)
    ensures Find(Recommendations, RenderEvaluation(e, lang)) == Some(Bullets(e.recommendations))
  {
    var h0, h1, h2, h3, h4 :=
      Header(Score, lang), Header(Strengths, lang), Header(Weaknesses, lang),
      Header(Recommendations, lang), Header(Feedback, lang);
    var b0, b1, b2, b3, b4 :=
      ScoreBody(e.overallScore), ListBody(e.strengths), ListBody(e.weaknesses),
      ListBody(e.recommendations), FeedbackBody(e.detailedFeedback);
    var text := RenderEvaluation(e, lang);
    Layout(h0, b0, h1, b1, h2, b2, h3, b3, h4, b4);
    BodiesShape(e);
    NoMatchInTwo(Recommendations, Score, Strengths, lang, text, b0, b1, h2 + b2, h3 + b3, h4 + b4);
    NoHeaderInSection(Recommendations, Weaknesses, text, (h0 + b0) + (h1 + b1), lang, b2, (h3 + b3) + (h4 + b4));
    NoMatchBefore(Recommendations, text, |(h0 + b0) + (h1 + b1)|, |(h0 + b0) + (h1 + b1) + (h2 + b2)|);
    ListFound(Recommendations, lang, e.recommendations, text, (h0 + b0) + (h1 + b1) + (h2 + b2), h4 + b4);
  }

  /** Neither of the two first sections holds a header of a third pattern. */
  lemma NoMatchInTwo(p: Pattern, q0: Pattern, q1: Pattern, lang: Language, text: string,
                     b0: string, b1: string, x2: string, x3: string, x4: string)
    requires text == Header(q0, lang) + b0 + (Header(q1, lang) + b1) + x2 + x3 + x4
    requires p != q0 && p != q1
    requires ':' !in b0 && b0 != [] && b0[|b0| - 1] == '\n'
    requires ':' !in b1 && b1 != [] && b1[|b1| - 1] == '\n'
    ensures forall k :: 0 <= k < |(Header(q0, lang) + b0) + (Header(q1, lang) + b1)| ==> MatchAt(p, text, k).None?
  {
    var h0, h1 := Header(q0, lang), Header(q1, lang);
    Regroup(h0, b0, h1, b1, x2, x3, x4);
    NoHeaderInSection(p, q0, text, [], lang, b0, (h1 + b1) + x2 + x3 + x4);
    NoHeaderInSection(p, q1, text, h0 + b0, lang, b1, x2 + x3 + x4);
  }

  lemma Regroup(h0: string, b0: string, h1: string, b1: string, x2: string, x3: string, x4: string)
    ensures var t := h0 + b0 + (h1 + b1) + x2 + x3 + x4;
            && t == [] + h0 + b0 + ((h1 + b1) + x2 + x3 + x4)
            && t == (h0 + b0) + h1 + b1 + (x2 + x3 + x4)
  {
  }

  /** No match in `[0, s)` and none in `[s, s')` is none in `[0, s')`. */
  lemma NoMatchBefore(p: Pattern, text: string, s: nat, s': nat)
    requires forall k :: 0 <= k < s ==> MatchAt(p, text, k).None?
    requires forall k :: s <= k < s' ==> MatchAt(p, text, k).None?
    ensures forall k :: 0 <= k < s' ==> MatchAt(p, text, k).None?
  {
  }

  /** A list section with no match of its pattern before it is what `find` returns. */
  lemma ListFound(p: Pattern, lang: Language, items: seq<string>, text: string, pre: string, post: string)
    requires text == pre + Header(p, lang) + ListBody(items) + post
    requires p != Score && p != Feedback
    requires |items| >= 1 && forall i :: 0 <= i < |items| ==> '\n' !in items[i]
    requires forall k :: 0 <= k < |pre| ==> MatchAt(p, text, k).None?
    ensures Find(p, text) == Some(Bullets(items))
  {
    ListSectionMatches(p, lang, items, text, pre, post);
    FindIs(p, text, |pre|);
  }

  lemma FeedbackFound(e: InterviewEvaluation, lang: Language)
    requires Renderable(e)
    ensures Find(Feedback, RenderEvaluation(e, lang)) == Some(e.detailedFeedback)
  {
    var h0, h1, h2, h3, h4 :=
      Header(Score, lang), Header(Strengths, lang), Header(Weaknesses, lang),
      Header(Recommendations, lang), Header(Feedback, lang);
    var b0, b1, b2, b3, b4 :=
      ScoreBody(e.overallScore), ListBody(e.strengths), ListBody(e.weaknesses),
      ListBody(e.recommendations), FeedbackBody(e.detailedFeedback);
    var text := RenderEvaluation(e, lang);
    var pre := (h0 + b0) + (h1 + b1) + (h2 + b2) + (h3 + b3);
    assert text == pre + h4 + b4;
    NoFeedbackHeaderBefore(e, lang);
    FeedbackSectionMatches(lang, e.detailedFeedback, pre);
    FindIs(Feedback, text, |pre|);
  }

  /** No feedback header occurs in the four sections before it. */
  lemma NoFeedbackHeaderBefore(e: InterviewEvaluation, lang: Language)
    requires Renderable(e)
    ensures var pre := Header(Score, lang) + ScoreBody(e.overallScore)
                       + (Header(Strengths, lang) + ListBody(e.strengths))
                       + (Header(Weaknesses, lang) + ListBody(e.weaknesses))
                       + (Header(Recommendations, lang) + ListBody(e.recommendations));
            forall k :: 0 <= k < |pre| ==> MatchAt(Feedback, RenderEvaluation(e, lang), k).None?
  {
    var h0, h1, h2, h3, h4 :=
      Header(Score, lang), Header(Strengths, lang), Header(Weaknesses, lang),
      Header(Recommendations, lang), Header(Feedback, lang);
    var b0, b1, b2, b3, b4 :=
      ScoreBody(e.overallScore), ListBody(e.strengths), ListBody(e.weaknesses),
      ListBody(e.recommendations), FeedbackBody(e.detailedFeedback);
    var text := RenderEvaluation(e, lang);
    Layout(h0, b0, h1, b1, h2, b2, h3, b3, h4, b4);
    BodiesShape(e);
    NoHeaderInSection(Feedback, Score, text, [], lang, b0, (h1 + b1) + (h2 + b2) + (h3 + b3) + (h4 + b4));
    NoHeaderInSection(Feedback, Strengths, text, h0 + b0, lang, b1, (h2 + b2) + (h3 + b3) + (h4 + b4));
    NoHeaderInSection(Feedback, Weaknesses, text, (h0 + b0) + (h1 + b1), lang, b2, (h3 + b3) + (h4 + b4));
    NoHeaderInSection(Feedback, Recommendations, text, (h0 + b0) + (h1 + b1) + (h2 + b2), lang, b3, h4 + b4);
  }

  /** A rendered evaluation starts with its score header and ends with the
      feedback's last character, so trimming leaves it as it is.  Only the
      feedback matters here: the lists may be anything, empty included. */
  lemma RenderedIsTrimmed(e: InterviewEvaluation, lang: Language)
    requires 0 <= e.overallScore && e.detailedFeedback != [] && IsTrimmed(e.detailedFeedback)
    ensures !IsBlank(RenderEvaluation(e, lang))
    ensures Trim(RenderEvaluation(e, lang)) == RenderEvaluation(e, lang)
  {
    var h0, h4 := Header(Score, lang), Header(Feedback, lang);
    var fb := e.detailedFeedback;
    var a := h0 + ScoreBody(e.overallScore);
    var m := a + (Header(Strengths, lang) + ListBody(e.strengths))
             + (Header(Weaknesses, lang) + ListBody(e.weaknesses))
             + (Header(Recommendations, lang) + ListBody(e.recommendations));
    var z := h4 + FeedbackBody(fb);
    var text := RenderEvaluation(e, lang);
    assert text == m + z;
    MarkerShape(Score, lang);
    assert h0[0] == Marker(Score, lang)[0];
    assert a[0] == h0[0];
    assert m[0] == a[0];
    assert z[|z| - 1] == fb[|fb| - 1];
    TrimmedByEnds(m, z);
  }

  lemma TrimmedByEnds(m: string, z: string)
    requires m != [] && z != [] && !IsWhitespace(m[0]) && !IsWhitespace(z[|z| - 1])
    ensures !IsBlank(m + z) && Trim(m + z) == m + z
  {
    var t := m + z;
    assert t[0] == m[0] && t[|t| - 1] == z[|z| - 1];
    TrimUnique([], t, []);
    assert [] + t + [] == t;
  }

  lemma TrimmedBetween(t: string, a: string, x: string, z: string, y: string, b: string)
    requires t == a + x + z && t == y + b
    requires a != [] && b != [] && !IsWhitespace(a[0]) && !IsWhitespace(b[|b| - 1])
    ensures !IsBlank(t) && Trim(t) == t
  {
    assert t[0] == a[0];
    assert t[|t| - 1] == b[|b| - 1];
    TrimUnique([], t, []);
    assert [] + t + [] == t;
  }

  /** `parseEvaluation` on a non-blank text is the five searches on its trimmed form. */
  lemma ParseFields(t: string)
    requires !IsBlank(t)
    ensures var u := Trim(t);
            ParseEvaluation(Some(t))
            == InterviewEvaluation(ScoreOf(Find(Score, u)), SectionItems(Find(Strengths, u)),
                                   SectionItems(Find(Weaknesses, u)),
                                   SectionItems(Find(Recommendations, u)),
                                   FeedbackOf(Find(Feedback, u)))
  {
  }

  lemma ScoreOfNat(n: nat)
    requires n <= IntMax
    ensures ScoreOf(Some(NatToString(n))) == n
  {
  }

  lemma FeedbackOfTrimmed(fb: string)
    requires IsTrimmed(fb)
    ensures FeedbackOf(Some(fb)) == fb
  {
    TrimUnique([], fb, []);
    assert [] + fb + [] == fb;
  }

  /** `parseEvaluation` assembles what the five searches find. */
  lemma ParseFromSections(t: string, e: InterviewEvaluation)
    requires Renderable(e)
    requires !IsBlank(t) && Trim(t) == t
    requires Find(Score, t) == Some(NatToString(e.overallScore))
    requires Find(Strengths, t) == Some(Bullets(e.strengths))
    requires Find(Weaknesses, t) == Some(Bullets(e.weaknesses))
    requires Find(Recommendations, t) == Some(Bullets(e.recommendations))
    requires Find(Feedback, t) == Some(e.detailedFeedback)
    ensures ParseEvaluation(Some(t)) == e
  {
    ParseFields(t);
    ScoreOfNat(e.overallScore);
    SectionItemsOfBullets(e.strengths);
    SectionItemsOfBullets(e.weaknesses);
    SectionItemsOfBullets(e.recommendations);
    FeedbackOfTrimmed(e.detailedFeedback);
  }

  /** Every field of an evaluation written in the prompt's format, in either
      language, is what `parseEvaluation` reads back. */
  lemma ParseRendered(e: InterviewEvaluation, lang: Language)
    requires Renderable(e)
    ensures ParseEvaluation(Some(RenderEvaluation(e, lang))) == e
  {
    RenderedIsTrimmed(e, lang);
    ScoreFound(e, lang);
    StrengthsFound(e, lang);
    WeaknessesFound(e, lang);
    RecommendationsFound(e, lang);
    FeedbackFound(e, lang);
    ParseFromSections(RenderEvaluation(e, lang), e);
  }
}
