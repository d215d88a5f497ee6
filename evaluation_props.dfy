/**
 * What `parseEvaluation` does with texts that do not follow the requested
 * layout: how the score is read, and when a section comes out empty.
 */
module EvaluationProperties {
  import opened Text
  import opened Model
  import opened EvaluationParser
  import opened EvaluationFormat

  /** `\s*(\d+)` over whitespace then a maximal digit run captures that run. */
  lemma ScoreDigitsAfter(text: string, q: nat, ws: string, ds: string, rest: string)
    requires q <= |text| && text[q..] == ws + ds + rest
    requires forall i :: 0 <= i < |ws| ==> IsRegexSpace(ws[i])
    requires ds != [] && AllDigits(ds)
    requires rest == [] || !IsDigit(rest[0])
    ensures ScoreDigits(text, q) == Some(ds)
  {
    SpacesBeforeDigits(text, q, ws, ds, rest);
    DigitsBeforeRest(text, q + |ws|, ds, rest);
    ScoreDigitsAt(text, q, |ws|, |ds|);
  }

  lemma SpacesBeforeDigits(text: string, q: nat, ws: string, ds: string, rest: string)
    requires q <= |text| && text[q..] == ws + ds + rest
    requires forall i :: 0 <= i < |ws| ==> IsRegexSpace(ws[i])
    requires ds != [] && AllDigits(ds)
    ensures q + |ws| <= |text| && RegexSpaceRun(text[q..]) == |ws| && text[q + |ws|..] == ds + rest
  {
    var tail := ds + rest;
    assert text[q..] == ws + tail;
    RegexSpaceIsWhitespace(ds[0]);
    assert tail[0] == ds[0];
    RegexSpaceRunOf(ws, tail);
    SuffixParts(text, q, ws, tail);
  }

  lemma DigitsBeforeRest(text: string, p: nat, ds: string, rest: string)
    requires p <= |text| && text[p..] == ds + rest
    requires AllDigits(ds)
    requires rest == [] || !IsDigit(rest[0])
    ensures p + |ds| <= |text| && DigitRun(text[p..]) == |ds| && text[p..p + |ds|] == ds
  {
    DigitRunOf(ds, rest);
    SuffixParts(text, p, ds, rest);
  }

  lemma ScoreDigitsAt(text: string, q: nat, w: nat, d: nat)
    requires q + w <= |text|
    requires RegexSpaceRun(text[q..]) == w && DigitRun(text[q + w..]) == d && d > 0
    ensures ScoreDigits(text, q) == Some(text[q + w..q + w + d])
  {
  }

  /** A score header followed by whitespace and digits is read as the value of
      those digits, as they are (a score above 100 is kept), except that a value
      too large for an `Int` becomes 0. */
  lemma ScoreAfterHeader(lang: Language, ws: string, ds: string, rest: string)
    requires forall i :: 0 <= i < |ws| ==> IsRegexSpace(ws[i])
    requires ds != [] && AllDigits(ds)
    requires rest == [] || (!IsDigit(rest[0]) && !IsWhitespace(rest[|rest| - 1]))
    ensures ParseEvaluation(Some(Header(Score, lang) + ws + ds + rest)).overallScore
            == (if DigitsValue(ds) <= IntMax then DigitsValue(ds) else 0)
  {
    var text := Header(Score, lang) + ws + ds + rest;
    ScoreTextTrimmed(lang, ws, ds, rest);
    ScoreHeaderFound(lang, ws, ds, rest);
    ParseFields(text);
  }

  lemma ScoreTextTrimmed(lang: Language, ws: string, ds: string, rest: string)
    requires ds != [] && AllDigits(ds)
    requires rest == [] || !IsWhitespace(rest[|rest| - 1])
    ensures var text := Header(Score, lang) + ws + ds + rest; !IsBlank(text) && Trim(text) == text
  {
    var h := Header(Score, lang);
    var text := h + ws + ds + rest;
    MarkerShape(Score, lang);
    assert h[0] == Marker(Score, lang)[0];
    RegexSpaceIsWhitespace(ds[|ds| - 1]);
    if rest == [] {
      assert text == h + ws + ds;
      TrimmedBetween(text, h, ws, ds, h + ws, ds);
    } else {
      TrimmedBetween(text, h, ws, ds + rest, h + ws + ds, rest);
    }
  }

  lemma ScoreHeaderFound(lang: Language, ws: string, ds: string, rest: string)
    requires forall i :: 0 <= i < |ws| ==> IsRegexSpace(ws[i])
    requires ds != [] && AllDigits(ds)
    requires rest == [] || !IsDigit(rest[0])
    ensures Find(Score, Header(Score, lang) + ws + ds + rest) == Some(ds)
  {
    var h := Header(Score, lang);
    var text := h + ws + ds + rest;
    assert text == [] + h + (ws + ds + rest);
    HeaderFound(Score, lang, [], ws + ds + rest);
    assert text[|h|..] == ws + ds + rest;
    ScoreDigitsAfter(text, |h|, ws, ds, rest);
    assert MatchAt(Score, text, 0) == Some(ds);
    FindIs(Score, text, 0);
  }

  /** A pattern matches only where one of its two headers is written. */
  lemma AbsentHeaderNotFound(p: Pattern, u: string)
    requires forall k :: 0 <= k <= |u| ==>
               !InfixAt(Header(p, English), u, k) && !InfixAt(Header(p, Turkish), u, k)
    ensures Find(p, u) == None
  {
  }

  /** A list section is only ever read when a blank line follows somewhere. */
  lemma ListNeedsBlankLine(p: Pattern, u: string)
    requires p != Score && p != Feedback
    requires NoBlankLine(u)
    ensures Find(p, u) == None
  {
    forall k | 0 <= k <= |u| ensures MatchAt(p, u, k).None? {
      assert forall j :: !BlankLineAt(u, j);
    }
  }

  /** Sections whose header is missing come out empty: score 0, no items,
      empty feedback. */
  lemma MissingSections(text: string)
    requires !IsBlank(text)
    ensures var u := Trim(text);
            var r := ParseEvaluation(Some(text));
            && ((forall k :: 0 <= k <= |u| ==>
                   !InfixAt(Header(Score, English), u, k) && !InfixAt(Header(Score, Turkish), u, k))
                ==> r.overallScore == 0)
            && ((forall k :: 0 <= k <= |u| ==>
                   !InfixAt(Header(Strengths, English), u, k) && !InfixAt(Header(Strengths, Turkish), u, k))
                ==> r.strengths == [])
            && ((forall k :: 0 <= k <= |u| ==>
                   !InfixAt(Header(Weaknesses, English), u, k) && !InfixAt(Header(Weaknesses, Turkish), u, k))
                ==> r.weaknesses == [])
            && ((forall k :: 0 <= k <= |u| ==>
                   !InfixAt(Header(Recommendations, English), u, k)
                   && !InfixAt(Header(Recommendations, Turkish), u, k))
                ==> r.recommendations == [])
            && ((forall k :: 0 <= k <= |u| ==>
                   !InfixAt(Header(Feedback, English), u, k) && !InfixAt(Header(Feedback, Turkish), u, k))
                ==> r.detailedFeedback == [])
  {
    var u := Trim(text);
    ParseFields(text);
    forall p: Pattern | forall k :: 0 <= k <= |u| ==>
                          !InfixAt(Header(p, English), u, k) && !InfixAt(Header(p, Turkish), u, k)
      ensures Find(p, u) == None
    {
      AbsentHeaderNotFound(p, u);
    }
  }

  /** Without a blank line anywhere in the trimmed text, the three lists are empty. */
  lemma NoBlankLineNoLists(text: string)
    requires !IsBlank(text) && NoBlankLine(Trim(text))
    ensures var r := ParseEvaluation(Some(text));
            r.strengths == [] && r.weaknesses == [] && r.recommendations == []
  {
    ParseFields(text);
    ListNeedsBlankLine(Strengths, Trim(text));
    ListNeedsBlankLine(Weaknesses, Trim(text));
    ListNeedsBlankLine(Recommendations, Trim(text));
  }

  // ---------------------------------------------------------------------------
  // An empty list section

  /** After a header: three newlines, then another header line and its bullets.
      `\s*` takes all three newlines, and the lazy group runs on to the blank
      line after the next section. */
  lemma LazyGroupAcross(text: string, q: nat, b1: string, h2: string, b2: string, b: string, post: string)
    requires b1 == "\n\n\n" && b2 == "\n" + b + "\n\n"
    requires q <= |text| && text[q..] == b1 + ((h2 + b2) + post)
    requires h2 != [] && '\n' !in h2 && !IsRegexSpace(h2[0])
    requires b != [] && b[0] == '-' && b[|b| - 1] != '\n' && NoBlankLine(b)
    ensures RegexSpaceRun(text[q..]) == 3
    ensures LazySection(text, q, 3) == Some(h2 + "\n" + b)
  {
    var g := q + 3;
    var x := h2 + "\n" + b;
    assert text[q..] == "\n\n\n" + (x + "\n\n" + post);
    RegexSpaceRunOf("\n\n\n", x + "\n\n" + post);
    assert text[q + 2] == '\n';
    var j := g + |x|;
    assert text[g..j] == x by {
      forall i | 0 <= i < |x| ensures text[g + i] == x[i] {
        assert text[g + i] == text[q..][3 + i];
      }
    }
    assert BlankLineAt(text, j) by {
      assert text[j] == text[q..][3 + |x|];
      assert text[j + 1] == text[q..][4 + |x|];
    }
    forall i | g <= i < j ensures !BlankLineAt(text, i) {
      assert text[i] == x[i - g];
      if i - g < |h2| {
        assert x[i - g] == h2[i - g];
      } else if i - g == |h2| {
        assert text[i + 1] == x[i + 1 - g] == b[0];
      } else if i + 1 < j {
        assert text[i + 1] == x[i + 1 - g];
        assert x[i - g] == b[i - g - |h2| - 1] && x[i + 1 - g] == b[i + 1 - g - |h2| - 1];
        assert !BlankLineAt(b, i - g - |h2| - 1);
      } else {
        assert x[i - g] == b[|b| - 1];
      }
    }
    assert FirstBlankLine(text, g) == Some(j);
  }

  /** A header line is not a bullet, so the items after it are read alone. */
  lemma ItemsAfterHeaderLine(h2: string, items: seq<string>)
    requires h2 != [] && IsTrimmed(h2) && h2[0] != '-' && '\n' !in h2
    requires WellFormedList(items)
    ensures SectionItems(Some(h2 + "\n" + Bullets(items))) == items
  {
    var lines := BulletLines(items);
    forall k | 0 <= k < |lines| ensures '\n' !in lines[k] {
      assert lines[k] == "- " + items[k];
    }
    SplitLine(h2, Bullets(items));
    SplitJoin(lines);
    TrimUnique([], h2, []);
    assert [] + h2 + [] == h2;
    assert ([h2] + lines)[1..] == lines;
    assert !StartsWith(Trim(h2), "-");
    ItemsOfBulletLines(items);
  }

  lemma Assoc4(a: string, b: string, c: string, d: string)
    ensures a + b + c + d == a + b + (c + d)
  {
  }

  lemma SliceAfter(pre: string, x: string, y: string)
    ensures (pre + x + y)[|pre| + |x|..] == y
  {
  }

  /** An empty strengths section followed by the weaknesses section. */
  lemma EmptySectionMatch(lang: Language, pre: string, b1: string, b2: string, bw: string,
                          r3: string, r4: string)
    requires b1 == "\n" + [] + "\n\n" && b2 == "\n" + bw + "\n\n"
    requires bw != [] && bw[0] == '-' && bw[|bw| - 1] != '\n' && NoBlankLine(bw)
    ensures var h2 := Header(Weaknesses, lang);
            MatchAt(Strengths, pre + Header(Strengths, lang) + b1 + ((h2 + b2) + r3 + r4), |pre|)
            == Some(h2 + "\n" + bw)
  {
    var h1, h2 := Header(Strengths, lang), Header(Weaknesses, lang);
    var post := (h2 + b2) + r3 + r4;
    var text := pre + h1 + b1 + post;
    var rest := r3 + r4;
    assert post == (h2 + b2) + rest;
    Assoc4(pre, h1, b1, post);
    HeaderFound(Strengths, lang, pre, b1 + post);
    var q := |pre| + |h1|;
    SliceAfter(pre, h1, b1 + post);
    assert b1 == "\n\n\n";
    MarkerShape(Weaknesses, lang);
    assert h2[0] == Marker(Weaknesses, lang)[0];
    LazyGroupAcross(text, q, b1, h2, b2, bw, rest);
  }

  lemma EmptyStrengthsFound(e: InterviewEvaluation, lang: Language)
    requires Renderable(e)
    ensures Find(Strengths, RenderEvaluation(e.(strengths := []), lang))
            == Some(Header(Weaknesses, lang) + "\n" + Bullets(e.weaknesses))
  {
    var text := RenderEvaluation(e.(strengths := []), lang);
    var pre := Header(Score, lang) + ScoreBody(e.overallScore);
    NoStrengthsInScoreSection(e, lang);
    EmptyStrengthsMatch(e, lang);
    FindIs(Strengths, text, |pre|);
  }

  /** The score section holds no strengths header. */
  lemma NoStrengthsInScoreSection(e: InterviewEvaluation, lang: Language)
    requires Renderable(e)
    ensures var pre := Header(Score, lang) + ScoreBody(e.overallScore);
            forall k :: 0 <= k < |pre| ==> MatchAt(Strengths, RenderEvaluation(e.(strengths := []), lang), k).None?
  {
    var h0, h1, h2, h3, h4 :=
      Header(Score, lang), Header(Strengths, lang), Header(Weaknesses, lang),
      Header(Recommendations, lang), Header(Feedback, lang);
    var b0, b1, b2, b3, b4 :=
      ScoreBody(e.overallScore), ListBody([]), ListBody(e.weaknesses),
      ListBody(e.recommendations), FeedbackBody(e.detailedFeedback);
    var text := RenderEvaluation(e.(strengths := []), lang);
    assert text == h0 + b0 + (h1 + b1) + (h2 + b2) + (h3 + b3) + (h4 + b4);
    Layout(h0, b0, h1, b1, h2, b2, h3, b3, h4, b4);
    BodiesShape(e);
    NoHeaderInSection(Strengths, Score, text, [], lang, b0, (h1 + b1) + (h2 + b2) + (h3 + b3) + (h4 + b4));
  }

  /** Right after the score section, the strengths pattern matches and its
      group runs over the empty section into the weaknesses section. */
  lemma EmptyStrengthsMatch(e: InterviewEvaluation, lang: Language)
    requires Renderable(e)
    ensures var pre := Header(Score, lang) + ScoreBody(e.overallScore);
            MatchAt(Strengths, RenderEvaluation(e.(strengths := []), lang), |pre|)
            == Some(Header(Weaknesses, lang) + "\n" + Bullets(e.weaknesses))
  {
    var h0, h1, h2, h3, h4 :=
      Header(Score, lang), Header(Strengths, lang), Header(Weaknesses, lang),
      Header(Recommendations, lang), Header(Feedback, lang);
    var b0, b1, b2, b3, b4 :=
      ScoreBody(e.overallScore), ListBody([]), ListBody(e.weaknesses),
      ListBody(e.recommendations), FeedbackBody(e.detailedFeedback);
    var text := RenderEvaluation(e.(strengths := []), lang);
    assert text == h0 + b0 + (h1 + b1) + (h2 + b2) + (h3 + b3) + (h4 + b4);
    Layout(h0, b0, h1, b1, h2, b2, h3, b3, h4, b4);
    BulletsShape(e.weaknesses);
    assert Bullets([]) == [];
    EmptySectionMatch(lang, h0 + b0, b1, b2, Bullets(e.weaknesses), h3 + b3, h4 + b4);
  }

  /** When the strengths section is left empty (its header, then the blank
      line), the strengths read back are the weaknesses: the lazy group skips
      over the empty section and stops at the blank line closing the next one. */
  lemma EmptyStrengthsReadWeaknesses(e: InterviewEvaluation, lang: Language)
    requires Renderable(e)
    ensures ParseEvaluation(Some(RenderEvaluation(e.(strengths := []), lang))).strengths
            == e.weaknesses
  {
    var text := RenderEvaluation(e.(strengths := []), lang);
    var h2 := Header(Weaknesses, lang);
    RenderedIsTrimmed(e.(strengths := []), lang);
    EmptyStrengthsFound(e, lang);
    HeaderLineShape(Weaknesses, lang);
    ItemsAfterHeaderLine(h2, e.weaknesses);
    ParseFields(text);
  }

  /** A header is one trimmed line that is not a bullet. */
  lemma HeaderLineShape(p: Pattern, lang: Language)
    ensures var h := Header(p, lang); h != [] && IsTrimmed(h) && h[0] != '-' && '\n' !in h
  {
    var h := Header(p, lang);
    MarkerShape(p, lang);
    assert h[0] == Marker(p, lang)[0];
    assert h[|h| - 1] == ':';
  }
}
