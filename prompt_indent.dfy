/**
 * The prompts as the source spells them: each template is a raw string
 * literal whose lines are indented by twelve spaces, opened by a line break
 * and closed by eight spaces before the closing quotes, and `trimIndent()`
 * turns it into the prompt.  The theorems below show that the joined
 * template lines of `Prompts` are what `trimIndent` makes of these raw
 * texts: without pairs (and for the question prompt) every line loses the
 * twelve spaces; with pairs each `Answer:` line starts at column 0, so no
 * line loses anything and only the line breaks inside the pairs are
 * rewritten as "\n".
 */
module PromptIndentation {
  import opened Text
  import opened Model
  import opened EvaluationParser
  import opened Indentation
  import opened Prompts

  /** The spaces before the closing quotes of both templates. */
  const ClosingIndent: string := "        "

  /** The raw text of the question template, before `trimIndent`. */
  function RawQuestionTemplate(c: InterviewConfig): string {
    "\n" + Join(Indented(SourceIndent, QuestionPromptLines(c))) + "\n" + ClosingIndent
  }

  /** The raw text of the evaluation template of the configured language,
      with the Q&A text spliced in after the indentation of its line. */
  function RawEvaluationTemplate(c: InterviewConfig, qas: seq<QuestionAnswer>): string {
    "\n" + Join(Indented(SourceIndent, EvaluationTemplateOf(c, QaText(qas)))) + "\n" + ClosingIndent
  }

  // ---------------------------------------------------------------------------
  // The template words hold no line break

  lemma IndentsOneLine()
    ensures IsBlank(SourceIndent) && OneLine(SourceIndent)
    ensures IsBlank(ClosingIndent) && OneLine(ClosingIndent)
  {
  }

  lemma OneLine3(a: string, b: string, c: string)
    requires OneLine(a) && OneLine(b) && OneLine(c)
    ensures OneLine(a + b + c)
  {
    OneLineConcat(a, b);
    OneLineConcat(a + b, c);
  }

  lemma DigitsOneLine(s: string)
    requires AllDigits(s)
    ensures OneLine(s)
  {
  }

  lemma IntToStringOneLine(n: int)
    ensures OneLine(IntToString(n))
  {
    if n < 0 {
      DigitsOneLine(NatToString(-n));
      OneLineConcat("-", NatToString(-n));
    } else {
      DigitsOneLine(NatToString(n));
    }
  }

  lemma RulesOneLine()
    ensures OneLine(RelevanceRule) && OneLine(NumberingRule) && OneLine(SkillsRule) && OneLine(FairnessRule)
  {
    FirstRulesOneLine();
    LastRulesOneLine();
  }

  lemma FirstRulesOneLine()
    ensures OneLine(RelevanceRule) && OneLine(NumberingRule)
  {
    OneLineConcat("- Questions should be professional", " and relevant to the profession");
    OneLineConcat("- Each question should be numbered", " (1., 2., 3., etc.)");
  }

  lemma LastRulesOneLine()
    ensures OneLine(SkillsRule) && OneLine(FairnessRule)
  {
    OneLineConcat("- Questions should test both", " technical skills and soft skills");
    OneLine3("- Make questions challenging", " but fair for the specified", " difficulty level");
  }

  lemma NumberingRequestOneLine(n: int)
    ensures OneLine(NumberingRequest(n))
  {
    OneLineConcat("Please provide only the questions,", " numbered from 1 to ");
    IntToStringOneLine(n);
    OneLine3(NumberingPrefix, IntToString(n), ".");
  }

  lemma QuestionOpeningOneLine(count: string, profession: string)
    requires OneLine(count) && OneLine(profession)
    ensures OneLine(QuestionOpening(count, profession))
  {
    OneLine3("Generate ", count, " interview questions for a ");
    OneLine3("Generate " + count + " interview questions for a ", profession, " position.");
  }

  /** Every line of the question template is a single line when the profession is. */
  lemma QuestionLinesOneLine(c: InterviewConfig)
    requires OneLine(c.profession)
    ensures forall k :: 0 <= k < |QuestionPromptLines(c)| ==> OneLine(QuestionPromptLines(c)[k])
  {
    IntToStringOneLine(c.questionCount);
    QuestionOpeningOneLine(IntToString(c.questionCount), c.profession);
    SettingLinesOneLine(c);
    RulesOneLine();
    NumberingRequestOneLine(c.questionCount);
    assert OneLine("Requirements:");
    assert OneLine("");
  }

  lemma SettingLinesOneLine(c: InterviewConfig)
    ensures OneLine("- Difficulty level: " + QuestionDifficultyText(c.difficulty))
    ensures OneLine("- Language: " + c.language.Label())
  {
    QuestionDifficultyOneLine(c.difficulty);
    LabelOneLine(c.language);
    OneLineConcat("- Difficulty level: ", QuestionDifficultyText(c.difficulty));
    OneLineConcat("- Language: ", c.language.Label());
  }

  lemma QuestionDifficultyOneLine(d: DifficultyLevel)
    ensures OneLine(QuestionDifficultyText(d))
  {
  }

  lemma LabelOneLine(lang: Language)
    ensures OneLine(lang.Label())
  {
  }

  lemma DifficultyTextOneLine(d: DifficultyLevel, lang: Language)
    ensures OneLine(EvaluationDifficultyText(d, lang))
  {
    if lang == Turkish {
      TurkishDifficultyOneLine(d);
    } else {
      QuestionDifficultyOneLine(d);
    }
  }

  lemma TurkishDifficultyOneLine(d: DifficultyLevel)
    ensures OneLine(EvaluationDifficultyText(d, Turkish))
  {
  }

  /** The opening sentence is the profession between two single lines. */
  lemma OpeningAround(lang: Language, profession: string, d: string) returns (a: string, b: string)
    requires OneLine(d)
    ensures Opening(lang, profession, d) == a + profession + b && OneLine(a) && OneLine(b)
  {
    match lang
    case English =>
      a := "Evaluate the following interview" + " answers for a ";
      OneLineConcat("Evaluate the following interview", " answers for a ");
      b := " position at " + d + ".";
      OneLine3(" position at ", d, ".");
    case Turkish =>
      a := [];
      b := " pozisyonu için " + d + (" mülakat cevaplarını" + " değerlendir.");
      OneLineConcat(" mülakat cevaplarını", " değerlendir.");
      OneLine3(" pozisyonu için ", d, " mülakat cevaplarını" + " değerlendir.");
      assert Opening(lang, profession, d) == a + profession + b;
  }

  lemma IntroWordsOneLine(lang: Language)
    ensures OneLine(DetailsTitle(lang)) && OneLine(PositionPrefix(lang)) && OneLine(DifficultyPrefix(lang))
    ensures OneLine(LanguageLine(lang)) && OneLine(QaTitle(lang))
  {
    TitlesOneLine(lang);
    LabelsOneLine(lang);
    OneLine3("- ", PositionLabel(lang), ": ");
    OneLine3("- ", DifficultyLabel(lang), ": ");
  }

  /** The introduction's lines other than the opening sentence and the
      position line are single lines. */
  lemma IntroLinesOneLine(lang: Language, profession: string, d: string)
    requires OneLine(d)
    ensures var intro := EvaluationIntro(lang, profession, d);
      |intro| == 8 && intro[0] == Opening(lang, profession, d) && intro[2] == DetailsTitle(lang) &&
      intro[3] == PositionPrefix(lang) + profession &&
      forall i :: 0 <= i < 8 && i != 0 && i != 3 ==> OneLine(intro[i])
  {
    IntroWordsOneLine(lang);
    OneLineConcat(DifficultyPrefix(lang), d);
    assert OneLine("");
  }

  lemma TitlesOneLine(lang: Language)
    ensures OneLine(DetailsTitle(lang)) && OneLine(LanguageLine(lang)) && OneLine(QaTitle(lang))
  {
    match lang
    case English =>
      assert OneLine("Interview Details:");
      assert OneLine("- Language: English");
      assert OneLine("Questions and Answers:");
    case Turkish =>
      assert OneLine("Mülakat Detayları:");
      assert OneLine("- Dil: Türkçe");
      assert OneLine("Sorular ve Cevaplar:");
  }

  lemma LabelsOneLine(lang: Language)
    ensures OneLine(PositionLabel(lang)) && OneLine(DifficultyLabel(lang))
  {
  }

  lemma FormatRequestOneLine(lang: Language)
    ensures OneLine(FormatRequest(lang))
  {
    match lang
    case English => OneLineConcat("Please provide a comprehensive", " evaluation in the following format:");
    case Turkish => OneLineConcat("Lütfen değerlendirmeyi aşağıdaki", " formatta sağlayın:");
  }

  lemma OneLine5(a: string, b: string, c: string, d: string, e: string)
    requires OneLine(a) && OneLine(b) && OneLine(c) && OneLine(d) && OneLine(e)
    ensures OneLine(a + b + c + d + e)
  {
    OneLine3(a, b, c);
    OneLine3(a + b + c, d, e);
  }

  lemma FeedbackPlaceholderOneLine(lang: Language)
    ensures OneLine(FeedbackPlaceholder(lang))
  {
    if lang == English {
      EnglishFeedbackOneLine();
    } else {
      TurkishFeedbackOneLine();
    }
  }

  lemma EnglishFeedbackOneLine()
    ensures OneLine(FeedbackPlaceholder(English))
  {
      OneLine5("[Provide detailed feedback about", " the candidate's performance,", " highlighting specific answers",
               " and areas for improvement.", " This should be 2-3 paragraphs.]");
  }

  lemma TurkishFeedbackOneLine()
    ensures OneLine(FeedbackPlaceholder(Turkish))
  {
      OneLine5("[Adayın performansı hakkında", " detaylı geri bildirim, özellikle", " cevapları ve geliştirilmesi",
               " gereken alanları vurgulayarak.", " Bu 2-3 paragraf olmalı.]");
  }

  lemma CriteriaOneLine(lang: Language)
    ensures forall k :: 0 <= k < |Criteria(lang)| ==> OneLine(Criteria(lang)[k])
  {
    CriteriaTitleOneLine(lang);
    CriterionOneLine(lang, 1);
    CriterionOneLine(lang, 2);
    CriterionOneLine(lang, 3);
    CriterionOneLine(lang, 4);
    CriterionOneLine(lang, 5);
    CriterionOneLine(lang, 6);
  }

  lemma CriteriaTitleOneLine(lang: Language)
    ensures OneLine(CriteriaTitle(lang))
  {
  }

  lemma CriterionOneLine(lang: Language, n: nat)
    ensures OneLine(Criterion(lang, n))
  {
    if lang == English {
      EnglishCriterionOneLine(n);
    } else {
      TurkishCriterionOneLine(n);
    }
  }

  lemma EnglishCriterionOneLine(n: nat)
    ensures OneLine(Criterion(English, n))
  {
      if n == 1 { assert OneLine("- Technical knowledge and accuracy"); }
      else if n == 2 { assert OneLine("- Communication skills"); }
      else if n == 3 { assert OneLine("- Problem-solving approach"); }
      else if n == 4 { assert OneLine("- Relevance of answers"); }
      else if n == 5 { assert OneLine("- Depth of understanding"); }
      else { assert OneLine("- Professional presentation"); }
  }

  lemma TurkishCriterionOneLine(n: nat)
    ensures OneLine(Criterion(Turkish, n))
  {
      if n == 1 { assert OneLine("- Teknik bilgi ve doğruluk"); }
      else if n == 2 { assert OneLine("- İletişim becerileri"); }
      else if n == 3 { assert OneLine("- Problem çözme yaklaşımı"); }
      else if n == 4 { assert OneLine("- Cevapların konuyla ilgisi"); }
      else if n == 5 { assert OneLine("- Konuya hakimiyet"); }
      else { assert OneLine("- Profesyonel sunum"); }
  }

  lemma PlaceholdersOneLine(p: Pattern, lang: Language)
    ensures forall k :: 0 <= k < |Placeholders(p, lang)| ==> OneLine(Placeholders(p, lang)[k])
  {
    PlaceholderOneLine(p, lang, 1);
    PlaceholderOneLine(p, lang, 2);
    PlaceholderOneLine(p, lang, 3);
  }

  lemma PlaceholderOneLine(p: Pattern, lang: Language, n: nat)
    ensures OneLine(Placeholder(p, lang, n))
  {
    DigitsOneLine(NatToString(n));
    NounOneLine(p, lang);
    OneLine3("- [", PlaceholderNoun(p, lang), " ");
    OneLine3("- [" + PlaceholderNoun(p, lang) + " ", NatToString(n), "]");
  }

  lemma NounOneLine(p: Pattern, lang: Language)
    ensures OneLine(PlaceholderNoun(p, lang))
  {
  }

  lemma HeadersOneLine(lang: Language)
    ensures forall i :: 0 <= i < 5 ==> OneLine(Headers(lang)[i])
    ensures OneLine(Headers(lang)[0] + " [0-100]")
  {
    forall p: Pattern ensures OneLine(Header(p, lang)) {
      HeaderOneLine(p, lang);
    }
    OneLineConcat(Header(Score, lang), " [0-100]");
  }

  lemma HeaderOneLine(p: Pattern, lang: Language)
    ensures OneLine(Header(p, lang))
  {
    if lang == English {
      EnglishMarkerOneLine(p);
    } else {
      TurkishMarkerOneLine(p);
    }
    OneLineConcat(Marker(p, lang), ":");
  }

  lemma EnglishMarkerOneLine(p: Pattern)
    ensures OneLine(Marker(p, English))
  {
  }

  lemma TurkishMarkerOneLine(p: Pattern)
    ensures OneLine(Marker(p, Turkish))
  {
  }

  /** Every template line but the opening sentence, the position line and
      the Q&A text is a single line. */
  lemma FixedLinesOneLine(headers: seq<string>, intro: seq<string>, qaText: string, request: string,
                          strengths: seq<string>, weaknesses: seq<string>, recommendations: seq<string>,
                          feedback: string, criteria: seq<string>)
    requires |headers| == 5 && |intro| == 8 && |criteria| == 7
    requires |strengths| == 3 && |weaknesses| == 3 && |recommendations| == 3
    requires forall i :: 0 <= i < 5 ==> OneLine(headers[i])
    requires OneLine(headers[0] + " [0-100]")
    requires forall i :: 0 <= i < 8 && i != 0 && i != 3 ==> OneLine(intro[i])
    requires OneLine(request) && OneLine(feedback)
    requires forall i :: 0 <= i < 3 ==> OneLine(strengths[i]) && OneLine(weaknesses[i]) && OneLine(recommendations[i])
    requires forall i :: 0 <= i < 7 ==> OneLine(criteria[i])
    ensures var t := EvaluationTemplate(headers, intro, qaText, request, strengths, weaknesses,
                                        recommendations, feedback, criteria);
      |t| == 39 && t[0] == intro[0] && t[2] == intro[2] && t[3] == intro[3] && t[8] == qaText &&
      t[38] == criteria[6] &&
      forall k :: 0 <= k < 39 && k != 0 && k != 3 && k != 8 ==> OneLine(t[k])
  {
  }

  lemma TemplateOfFixedLines(c: InterviewConfig, qaText: string)
    ensures var t := EvaluationTemplateOf(c, qaText);
      |t| == 39 && t[0] == Opening(c.language, c.profession, DifficultyText(c)) && t[2] == DetailsTitle(c.language) &&
      t[38] == Criterion(c.language, 6) &&
      t[3] == PositionPrefix(c.language) + c.profession && t[8] == qaText &&
      forall k :: 0 <= k < 39 && k != 0 && k != 3 && k != 8 ==> OneLine(t[k])
  {
    var lang := c.language;
    var d := DifficultyText(c);
    DifficultyTextOneLine(c.difficulty, lang);
    IntroLinesOneLine(lang, c.profession, d);
    HeadersOneLine(lang);
    FormatRequestOneLine(lang);
    FeedbackPlaceholderOneLine(lang);
    CriteriaOneLine(lang);
    PlaceholdersOneLine(Strengths, lang);
    PlaceholdersOneLine(Weaknesses, lang);
    PlaceholdersOneLine(Recommendations, lang);
    FixedLinesOneLine(Headers(lang), EvaluationIntro(lang, c.profession, d), qaText, FormatRequest(lang),
      Placeholders(Strengths, lang), Placeholders(Weaknesses, lang), Placeholders(Recommendations, lang),
      FeedbackPlaceholder(lang), Criteria(lang));
  }

  // ---------------------------------------------------------------------------
  // The prompts are what trimIndent makes of the raw templates

  /** `createPrompt`: every template line loses the twelve spaces of the
      source, so the prompt is the template lines joined with "\n". */
  lemma QuestionPromptIsTrimmedTemplate(c: InterviewConfig)
    requires OneLine(c.profession)
    ensures TrimIndent(RawQuestionTemplate(c)) == CreatePrompt(c)
  {
    QuestionLinesOneLine(c);
    IndentsOneLine();
    TrimIndentRemovesIndent(SourceIndent, QuestionPromptLines(c), ClosingIndent, 2);
  }

  lemma NoIndent(lines: seq<string>)
    ensures Indented([], lines) == lines
  {
    forall i | 0 <= i < |lines| ensures [] + lines[i] == lines[i] {
    }
  }

  /** `createEvaluationPrompt` without pairs: the Q&A line is blank, every
      other line loses the twelve spaces of the source. */
  lemma EvaluationPromptWithoutPairs(c: InterviewConfig)
    requires OneLine(c.profession)
    ensures TrimIndent(RawEvaluationTemplate(c, [])) == CreateEvaluationPrompt(c, [])
  {
    var t := EvaluationTemplateOf(c, []);
    assert QaText([]) == [];
    assert RawEvaluationTemplate(c, []) == "\n" + Join(Indented(SourceIndent, t)) + "\n" + ClosingIndent;
    assert CreateEvaluationPrompt(c, []) == Join(Indented([], t));
    TemplateLinesOneLine(c, []);
    IndentsOneLine();
    DetailsTitleStart(c.language);
    TrimIndentRemovesIndent(SourceIndent, t, ClosingIndent, 2);
    NoIndent(t);
  }

  lemma DetailsTitleStart(lang: Language)
    ensures DetailsTitle(lang) != [] && !IsWhitespace(DetailsTitle(lang)[0])
  {
  }

  /** The indentation the evaluation prompt's lines keep is the source's
      twelve spaces less what `trimIndent` cuts, the smallest indentation of
      the raw template's non-blank lines: with pairs the first `Answer:` line
      sits at column 0, so nothing is cut; without pairs all twelve are. */
  lemma CommonIndentIsMinWidth(c: InterviewConfig, qas: seq<QuestionAnswer>)
    requires qas == [] ==> OneLine(c.profession)
    ensures MinWidth(Lines(RawEvaluationTemplate(c, qas))) == Some(|SourceIndent| - |CommonIndent(qas)|)
  {
    IndentsOneLine();
    if qas == [] {
      MinWidthWithoutPairs(c);
    } else {
      MinWidthWithPairs(c, qas);
    }
  }

  lemma MinWidthWithoutPairs(c: InterviewConfig)
    requires OneLine(c.profession)
    ensures MinWidth(Lines(RawEvaluationTemplate(c, []))) == Some(|SourceIndent|)
  {
    var t := EvaluationTemplateOf(c, []);
    assert QaText([]) == [];
    assert RawEvaluationTemplate(c, []) == "\n" + Join(Indented(SourceIndent, t)) + "\n" + ClosingIndent;
    TemplateLinesOneLine(c, []);
    IndentsOneLine();
    DetailsTitleStart(c.language);
    MinWidthOfIndented(SourceIndent, t, ClosingIndent, 2);
  }

  lemma MinWidthWithPairs(c: InterviewConfig, qas: seq<QuestionAnswer>)
    requires qas != []
    ensures MinWidth(Lines(RawEvaluationTemplate(c, qas))) == Some(0)
  {
    RawFramesPrompt(c, qas);
    PromptEnd(c, qas);
    var k := AnswerInPrompt(c, qas);
    AnswerLineAtColumnZero(CreateEvaluationPrompt(c, qas), k);
  }

  /** With pairs, the raw template is the prompt between its opening break
      and closing indentation. */
  lemma RawFramesPrompt(c: InterviewConfig, qas: seq<QuestionAnswer>)
    requires qas != []
    ensures RawEvaluationTemplate(c, qas) == "\n" + CreateEvaluationPrompt(c, qas) + "\n" + ClosingIndent
  {
  }

  /** The `Answer:` line of a text gives it no common indentation. */
  lemma AnswerLineAtColumnZero(x: string, k: nat)
    requires x != [] && x[|x| - 1] != '\r' && InfixAt("\n" + "Answer: ", x, k)
    ensures MinWidth(Lines("\n" + x + "\n" + ClosingIndent)) == Some(0)
  {
    var n := AnswerLine(x, k);
    var line := Lines(x)[n];
    assert !IsBlank(line) && IndentWidth(line) == 0 by {
      assert !IsWhitespace(line[0]);
    }
    IndentsOneLine();
    MinWidthColumnZero(x, ClosingIndent, n);
  }

  /** With a single-line profession and Q&A text, every template line is a single line. */
  lemma TemplateLinesOneLine(c: InterviewConfig, qaText: string)
    requires OneLine(c.profession) && OneLine(qaText)
    ensures var t := EvaluationTemplateOf(c, qaText);
      |t| == 39 && t[2] == DetailsTitle(c.language) && forall k :: 0 <= k < |t| ==> OneLine(t[k])
  {
    var lang := c.language;
    TemplateOfFixedLines(c, qaText);
    DifficultyTextOneLine(c.difficulty, lang);
    var a, b := OpeningAround(lang, c.profession, DifficultyText(c));
    OneLine3(a, c.profession, b);
    IntroWordsOneLine(lang);
    OneLineConcat(PositionPrefix(lang), c.profession);
  }

  /** `createEvaluationPrompt` with pairs: the first pair's `Answer:` line
      starts at column 0, so `trimIndent` cuts no indentation and only
      rewrites every line break of the prompt ("\r\n", "\r" or "\n") as "\n". */
  lemma EvaluationPromptWithPairs(c: InterviewConfig, qas: seq<QuestionAnswer>)
    requires qas != []
    ensures TrimIndent(RawEvaluationTemplate(c, qas)) == Join(Lines(CreateEvaluationPrompt(c, qas)))
  {
    var x := CreateEvaluationPrompt(c, qas);
    assert RawEvaluationTemplate(c, qas) == "\n" + x + "\n" + ClosingIndent;
    PromptEnd(c, qas);
    var k := AnswerInPrompt(c, qas);
    TrimAroundAnswer(x, k);
  }

  /** A text that ends with a letter and holds an `Answer:` line keeps its
      lines through `trimIndent`. */
  lemma TrimAroundAnswer(x: string, k: nat)
    requires x != [] && x[|x| - 1] != '\r' && InfixAt("\n" + "Answer: ", x, k)
    ensures TrimIndent("\n" + x + "\n" + ClosingIndent) == Join(Lines(x))
  {
    var n := AnswerLine(x, k);
    var line := Lines(x)[n];
    assert !IsBlank(line) && IndentWidth(line) == 0 by {
      assert !IsWhitespace(line[0]);
    }
    IndentsOneLine();
    TrimIndentKeepsColumnZero(x, ClosingIndent, n);
  }

  /** The line after "\n" + "Answer: " starts with a letter. */
  lemma AnswerLine(x: string, k: nat) returns (n: nat)
    requires InfixAt("\n" + "Answer: ", x, k)
    ensures n < |Lines(x)| && Lines(x)[n] != [] && Lines(x)[n][0] == 'A'
  {
    AnswerLabelOneLine();
    n := LineStartingWith("Answer: ", x, k);
    var line := Lines(x)[n];
    assert line[..8] == "Answer: ";
  }

  lemma AnswerLabelOneLine()
    ensures OneLine("Answer: ")
  {
  }

  /** With pairs, the prompt ends with the last criterion. */
  lemma PromptEnd(c: InterviewConfig, qas: seq<QuestionAnswer>)
    requires qas != []
    ensures var x := CreateEvaluationPrompt(c, qas); x != [] && x[|x| - 1] != '\r'
  {
    var t := EvaluationTemplateOf(c, QaText(qas));
    var ind := Indented(SourceIndent, t);
    assert CreateEvaluationPrompt(c, qas) == Join(ind);
    TemplateQaAndLastLine(c, QaText(qas));
    LastCriterionEnds(c.language);
    JoinEndsWithLastLine(ind);
  }

  /** With pairs, the prompt holds the first pair's `Answer:` line. */
  lemma AnswerInPrompt(c: InterviewConfig, qas: seq<QuestionAnswer>) returns (k: nat)
    requires qas != []
    ensures InfixAt("\n" + "Answer: ", CreateEvaluationPrompt(c, qas), k)
  {
    var qaText := QaText(qas);
    var t := EvaluationTemplateOf(c, qaText);
    var ind := Indented(SourceIndent, t);
    assert CreateEvaluationPrompt(c, qas) == Join(ind);
    TemplateQaAndLastLine(c, qaText);
    var a := AnswerAfterBreak(qas);
    k := InfixInIndentedLine("\n" + "Answer: ", qaText, a, ind, 8);
  }

  /** An infix of the text behind line `i`'s indentation is an infix of the joined lines. */
  lemma InfixInIndentedLine(w: string, text: string, a: nat, ind: seq<string>, i: nat) returns (k: nat)
    requires InfixAt(w, text, a) && i < |ind| && ind[i] == SourceIndent + text
    ensures InfixAt(w, Join(ind), k)
  {
    assert ind[i] == SourceIndent + text + [];
    InfixOfConcat(SourceIndent, text, []);
    LineAt(ind, i);
    InfixTrans(w, text, ind[i], a, |SourceIndent|);
    InfixTrans(w, ind[i], Join(ind), a + |SourceIndent|, Offset(ind, i));
    k := a + |SourceIndent| + Offset(ind, i);
  }

  /** Line 8 of the template is the Q&A text, line 38 the last criterion. */
  lemma TemplateQaAndLastLine(c: InterviewConfig, qaText: string)
    ensures var t := EvaluationTemplateOf(c, qaText);
      |t| == 39 && t[8] == qaText && t[38] == Criterion(c.language, 6)
  {
    var lang := c.language;
    TemplateEdges(Headers(lang), EvaluationIntro(lang, c.profession, DifficultyText(c)), qaText,
      FormatRequest(lang),
      Placeholders(Strengths, lang), Placeholders(Weaknesses, lang), Placeholders(Recommendations, lang),
      FeedbackPlaceholder(lang), Criteria(lang));
  }

  lemma TemplateEdges(headers: seq<string>, intro: seq<string>, qaText: string, request: string,
                      strengths: seq<string>, weaknesses: seq<string>, recommendations: seq<string>,
                      feedback: string, criteria: seq<string>)
    requires |headers| == 5 && |intro| == 8 && |criteria| == 7
    requires |strengths| == 3 && |weaknesses| == 3 && |recommendations| == 3
    ensures var t := EvaluationTemplate(headers, intro, qaText, request, strengths, weaknesses,
                                        recommendations, feedback, criteria);
      |t| == 39 && t[8] == qaText && t[38] == criteria[6]
  {
  }

  /** The last criterion, which closes both templates, ends with a letter. */
  lemma LastCriterionEnds(lang: Language)
    ensures var l := SourceIndent + Criterion(lang, 6); l != [] && l[|l| - 1] != '\r'
  {
  }

  /** The first pair's answer starts a line of the Q&A text. */
  lemma AnswerAfterBreak(qas: seq<QuestionAnswer>) returns (k: nat)
    requires qas != []
    ensures InfixAt("\n" + "Answer: ", QaText(qas), k)
  {
    var qa := qas[0];
    var pre := "Question " + NatToString(1) + ": " + qa.question;
    var block := QaBlock(1, qa);
    assert block == pre + ("\n" + "Answer: ") + (qa.answer + "\n");
    InfixOfConcat(pre, "\n" + "Answer: ", qa.answer + "\n");
    var blocks := QaBlocks(qas, 1);
    LineAt(blocks, 0);
    InfixTrans("\n" + "Answer: ", block, QaText(qas), |pre|, 0);
    k := |pre|;
  }

  /** Without carriage returns in the profession, the questions and the
      answers, the prompt is exactly what `trimIndent` makes of the raw
      template. */
  lemma EvaluationPromptWithPairsUnchanged(c: InterviewConfig, qas: seq<QuestionAnswer>)
    requires qas != []
    requires NoCarriageReturn(c.profession)
    requires forall i :: 0 <= i < |qas| ==> NoCarriageReturn(qas[i].question) && NoCarriageReturn(qas[i].answer)
    ensures TrimIndent(RawEvaluationTemplate(c, qas)) == CreateEvaluationPrompt(c, qas)
  {
    EvaluationPromptWithPairs(c, qas);
    var x := CreateEvaluationPrompt(c, qas);
    PromptWithoutReturns(c, qas);
    LinesAreSplit(x);
    JoinSplit(x);
  }

  lemma OneLineNoReturn(s: string)
    requires OneLine(s)
    ensures NoCarriageReturn(s)
  {
  }

  lemma NoReturn3(a: string, b: string, c: string)
    requires NoCarriageReturn(a) && NoCarriageReturn(b) && NoCarriageReturn(c)
    ensures NoCarriageReturn(a + b + c)
  {
    NoCarriageReturnConcat(a, b);
    NoCarriageReturnConcat(a + b, c);
  }

  lemma PromptWithoutReturns(c: InterviewConfig, qas: seq<QuestionAnswer>)
    requires qas != []
    requires NoCarriageReturn(c.profession)
    requires forall i :: 0 <= i < |qas| ==> NoCarriageReturn(qas[i].question) && NoCarriageReturn(qas[i].answer)
    ensures NoCarriageReturn(CreateEvaluationPrompt(c, qas))
  {
    var qaText := QaText(qas);
    var t := EvaluationTemplateOf(c, qaText);
    var ind := Indented(SourceIndent, t);
    assert CreateEvaluationPrompt(c, qas) == Join(ind);
    TemplateOfFixedLines(c, qaText);
    TemplateEdgesWithoutReturns(c, qaText);
    QaTextWithoutReturns(qas);
    IndentsOneLine();
    OneLineNoReturn(SourceIndent);
    forall k | 0 <= k < |ind| ensures NoCarriageReturn(ind[k]) {
      if k != 0 && k != 3 && k != 8 {
        OneLineNoReturn(t[k]);
      }
      NoCarriageReturnConcat(SourceIndent, t[k]);
    }
    JoinNoCarriageReturn(ind);
  }

  /** The opening sentence and the position line hold no carriage return
      when the profession holds none. */
  lemma TemplateEdgesWithoutReturns(c: InterviewConfig, qaText: string)
    requires NoCarriageReturn(c.profession)
    ensures NoCarriageReturn(Opening(c.language, c.profession, DifficultyText(c)))
    ensures NoCarriageReturn(PositionPrefix(c.language) + c.profession)
  {
    var lang := c.language;
    DifficultyTextOneLine(c.difficulty, lang);
    var a, b := OpeningAround(lang, c.profession, DifficultyText(c));
    OneLineNoReturn(a);
    OneLineNoReturn(b);
    NoReturn3(a, c.profession, b);
    IntroWordsOneLine(lang);
    OneLineNoReturn(PositionPrefix(lang));
    NoCarriageReturnConcat(PositionPrefix(lang), c.profession);
  }

  lemma {:induction false} QaTextWithoutReturns(qas: seq<QuestionAnswer>)
    requires forall i :: 0 <= i < |qas| ==> NoCarriageReturn(qas[i].question) && NoCarriageReturn(qas[i].answer)
    ensures NoCarriageReturn(QaText(qas))
  {
    var blocks := QaBlocks(qas, 1);
    forall i | 0 <= i < |blocks| ensures NoCarriageReturn(blocks[i]) {
      QaBlockWithoutReturns(1 + i, qas[i]);
    }
    JoinNoCarriageReturn(blocks);
  }

  lemma QaBlockWithoutReturns(n: nat, qa: QuestionAnswer)
    requires NoCarriageReturn(qa.question) && NoCarriageReturn(qa.answer)
    ensures NoCarriageReturn(QaBlock(n, qa))
  {
    DigitsOneLine(NatToString(n));
    OneLine3("Question ", NatToString(n), ": ");
    OneLineNoReturn("Question " + NatToString(n) + ": ");
    NoReturn3("Question " + NatToString(n) + ": ", qa.question, "\n");
    assert NoCarriageReturn("Answer: ");
    NoReturn3("Answer: ", qa.answer, "\n");
    NoCarriageReturnConcat("Question " + NatToString(n) + ": " + qa.question + "\n",
                           "Answer: " + qa.answer + "\n");
    assert QaBlock(n, qa) == ("Question " + NatToString(n) + ": " + qa.question + "\n")
                           + ("Answer: " + qa.answer + "\n");
  }
}
