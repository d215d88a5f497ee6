/**
 * The two prompts the repository sends: `createPrompt`, which asks for the
 * interview questions, and `createEvaluationPrompt`, which hands the answers
 * back for grading in the format `parseEvaluation` reads.  Each prompt is the
 * list of its template lines joined with line breaks; that this is what
 * `trimIndent` makes of the source's raw templates is proved in
 * `PromptIndentation`.
 */
module Prompts {
  import opened Text
  import opened Model
  import opened EvaluationParser
  import opened Indentation

  /** Kotlin's `Int.toString()`. */
  function IntToString(n: int): string {
    if n < 0 then "-" + NatToString(-n) else NatToString(n)
  }

  /** Where line `k` of `Join(lines)` starts. */
  function Offset(lines: seq<string>, k: nat): nat
    requires k <= |lines|
  {
    if k == 0 then 0 else Offset(lines, k - 1) + |lines[k - 1]| + 1
  }

  /** Later lines start further on. */
  lemma {:induction false} OffsetIncreasing(lines: seq<string>, i: nat, j: nat)
    requires i < j <= |lines|
    ensures Offset(lines, i) + |lines[i]| < Offset(lines, j)
    decreases j - i
  {
    if j > i + 1 {
      OffsetIncreasing(lines, i, j - 1);
    }
  }

  lemma {:induction false} OffsetTail(lines: seq<string>, k: nat)
    requires 0 < k <= |lines|
    ensures Offset(lines, k) == |lines[0]| + 1 + Offset(lines[1..], k - 1)
    decreases k
  {
    if k > 1 {
      OffsetTail(lines, k - 1);
    }
  }

  /** Line `k` of a joined text sits at `Offset(lines, k)`, right after a line break. */
  lemma {:induction false} LineAt(lines: seq<string>, k: nat)
    requires k < |lines|
    ensures InfixAt(lines[k], Join(lines), Offset(lines, k))
    ensures k > 0 ==> Join(lines)[Offset(lines, k) - 1] == '\n'
    decreases k
  {
    if k == 0 {
      if |lines| > 1 {
        InfixOfConcat([], lines[0], "\n" + Join(lines[1..]));
      }
    } else {
      var rest := lines[1..];
      LineAt(rest, k - 1);
      OffsetTail(lines, k);
      assert lines[k] == rest[k - 1];
      LineAfterBreak(lines[0], Join(rest), lines[k], Offset(rest, k - 1));
    }
  }

  /** Wherever the joined text sits, line `k` sits at its offset further on. */
  lemma LineWithin(lines: seq<string>, s: string, q: nat, k: nat)
    requires InfixAt(Join(lines), s, q) && k < |lines|
    ensures InfixAt(lines[k], s, q + Offset(lines, k))
  {
    LineAt(lines, k);
    InfixTrans(lines[k], Join(lines), s, Offset(lines, k), q);
  }

  /** A line of `t` is a line of `first + "\n" + t`, shifted past `first`. */
  lemma LineAfterBreak(first: string, t: string, line: string, o: nat)
    requires InfixAt(line, t, o)
    requires o > 0 ==> t[o - 1] == '\n'
    ensures InfixAt(line, first + "\n" + t, |first| + 1 + o)
    ensures (first + "\n" + t)[|first| + o] == '\n'
  {
    var s := first + "\n" + t;
    assert s[|first| + 1..] == t;
    assert s[|first| + 1 + o..|first| + 1 + o + |line|] == t[o..o + |line|];
    if o > 0 {
      assert s[|first| + o] == t[o - 1];
    }
  }

  lemma EndsWithLine(h: string, r: string)
    ensures var p := h + "\n" + r; |r| < |p| && p[|p| - |r|..] == r && p[|p| - |r| - 1] == '\n'
  {
  }

  /** Occurrence is transitive: an infix of an infix is an infix. */
  lemma InfixTrans(t: string, u: string, s: string, a: int, b: int)
    requires InfixAt(t, u, a) && InfixAt(u, s, b)
    ensures InfixAt(t, s, a + b)
  {
    forall i | 0 <= i < |t| ensures s[a + b + i] == t[i] {
      assert t[i] == u[a + i] == s[b + a + i];
    }
    assert s[a + b..a + b + |t|] == t;
  }

  lemma InfixOfConcat(a: string, t: string, b: string)
    ensures InfixAt(t, a + t + b, |a|)
  {
    assert (a + t + b)[|a|..|a| + |t|] == t;
  }

  /** `t` is part of line `k` of the joined text, so it occurs in that text. */
  lemma OccursInLine(t: string, a: string, b: string, lines: seq<string>, k: nat)
    requires k < |lines| && lines[k] == a + t + b
    ensures Occurs(t, Join(lines))
  {
    InfixOfConcat(a, t, b);
    LineAt(lines, k);
    InfixTrans(t, lines[k], Join(lines), |a|, Offset(lines, k));
  }

  /** `t` ends line `k` of the joined text, so it occurs in that text. */
  lemma OccursEndOfLine(t: string, a: string, lines: seq<string>, k: nat)
    requires k < |lines| && lines[k] == a + t
    ensures Occurs(t, Join(lines))
  {
    assert a + t + [] == lines[k];
    OccursInLine(t, a, [], lines, k);
  }

  // ---------------------------------------------------------------------------
  // createPrompt

  /** The difficulty as the question prompt words it. */
  function QuestionDifficultyText(d: DifficultyLevel): string {
    match d
    case Basic => "basic level"
    case Intermediate => "intermediate level"
    case Advanced => "advanced level"
  }

  /** The closing request of the question prompt. */
  function NumberingRequest(count: int): string {
    NumberingPrefix + IntToString(count) + "."
  }

  const NumberingPrefix: string := "Please provide only the questions," + " numbered from 1 to "

  /** The first line of the question prompt. */
  function QuestionOpening(count: string, profession: string): string {
    "Generate " + count + " interview questions for a " + profession + " position."
  }

  lemma OpeningMentions(count: string, profession: string)
    ensures InfixAt(count, QuestionOpening(count, profession), 9)
    ensures InfixAt(profession, QuestionOpening(count, profession), 9 + |count| + 27)
  {
    var s := QuestionOpening(count, profession);
    assert s[9..9 + |count|] == count;
    assert s[9 + |count| + 27..9 + |count| + 27 + |profession|] == profession;
  }

  /** The fixed requirement lines of the question prompt. */
  const RelevanceRule: string := "- Questions should be professional" + " and relevant to the profession"
  const NumberingRule: string := "- Each question should be numbered" + " (1., 2., 3., etc.)"
  const SkillsRule: string := "- Questions should test both" + " technical skills and soft skills"
  const FairnessRule: string := "- Make questions challenging" + " but fair for the specified" + " difficulty level"

  function QuestionPromptLines(c: InterviewConfig): seq<string> {
    [ "Generate " + IntToString(c.questionCount) + " interview questions for a " + c.profession + " position.",
      "",
      "Requirements:",
      "- Difficulty level: " + QuestionDifficultyText(c.difficulty),
      "- Language: " + c.language.Label(),
      RelevanceRule,
      NumberingRule,
      SkillsRule,
      FairnessRule,
      "",
      NumberingRequest(c.questionCount) ]
  }

  /** `createPrompt(config)` */
  function CreatePrompt(c: InterviewConfig): string {
    Join(QuestionPromptLines(c))
  }

  /** The question prompt names the number of questions, the profession, the
      difficulty and the language of the configuration. */
  lemma QuestionPromptMentions(c: InterviewConfig)
    ensures Occurs(IntToString(c.questionCount), CreatePrompt(c))
    ensures Occurs(c.profession, CreatePrompt(c))
    ensures Occurs(QuestionDifficultyText(c.difficulty), CreatePrompt(c))
    ensures Occurs(c.language.Label(), CreatePrompt(c))
  {
    OpeningOccurs(c);
    RequirementsOccur(c);
  }

  lemma OpeningOccurs(c: InterviewConfig)
    ensures Occurs(IntToString(c.questionCount), CreatePrompt(c))
    ensures Occurs(c.profession, CreatePrompt(c))
  {
    var lines := QuestionPromptLines(c);
    var n := IntToString(c.questionCount);
    var first := QuestionOpening(n, c.profession);
    OpeningMentions(n, c.profession);
    LineAt(lines, 0);
    InfixTrans(n, first, Join(lines), 9, 0);
    InfixTrans(c.profession, first, Join(lines), 9 + |n| + 27, 0);
  }

  lemma RequirementsOccur(c: InterviewConfig)
    ensures Occurs(QuestionDifficultyText(c.difficulty), CreatePrompt(c))
    ensures Occurs(c.language.Label(), CreatePrompt(c))
  {
    var lines := QuestionPromptLines(c);
    OccursEndOfLine(QuestionDifficultyText(c.difficulty), "- Difficulty level: ", lines, 3);
    OccursEndOfLine(c.language.Label(), "- Language: ", lines, 4);
  }

  /** The prompt closes with a line asking for exactly the configured number
      of questions, numbered from 1. */
  lemma QuestionPromptEndsWithNumbering(c: InterviewConfig)
    ensures var p, r := CreatePrompt(c), NumberingRequest(c.questionCount);
      |r| < |p| && p[|p| - |r|..] == r && p[|p| - |r| - 1] == '\n'
  {
    var lines := QuestionPromptLines(c);
    var r := NumberingRequest(c.questionCount);
    var body := lines[..10];
    assert lines == body + [r];
    JoinSnoc(body, r);
    EndsWithLine(Join(body), r);
  }

  // ---------------------------------------------------------------------------
  // createEvaluationPrompt

  /** The difficulty as the evaluation prompt words it, in the prompt's language. */
  function EvaluationDifficultyText(d: DifficultyLevel, lang: Language): string {
    match d
    case Basic => if lang == Turkish then "temel seviye" else "basic level"
    case Intermediate => if lang == Turkish then "orta seviye" else "intermediate level"
    case Advanced => if lang == Turkish then "ileri seviye" else "advanced level"
  }

  /** The configuration's difficulty as its evaluation prompt words it. */
  function DifficultyText(c: InterviewConfig): string {
    EvaluationDifficultyText(c.difficulty, c.language)
  }

  /** One question/answer pair, numbered `n`. */
  function QaBlock(n: nat, qa: QuestionAnswer): string {
    "Question " + NatToString(n) + ": " + qa.question + "\n" + "Answer: " + qa.answer + "\n"
  }

  /** The pairs as `mapIndexed` renders them, numbering from `first`. */
  function QaBlocks(qas: seq<QuestionAnswer>, first: nat): (r: seq<string>)
    ensures |r| == |qas|
    ensures forall i :: 0 <= i < |qas| ==> r[i] == QaBlock(first + i, qas[i])
    decreases |qas|
  {
    if qas == [] then [] else [QaBlock(first, qas[0])] + QaBlocks(qas[1..], first + 1)
  }

  /** `qaText`: the numbered pairs joined with line breaks. */
  function QaText(qas: seq<QuestionAnswer>): string {
    Join(QaBlocks(qas, 1))
  }

  /** The evaluation template, shared by both languages: an introduction of
      eight lines, the Q&A text, the request for the format, then the score
      line, the three bullet sections, the feedback section and the criteria.
      The section headers are spelled through `Header`, the names
      `parseEvaluation` matches. */
  function EvaluationTemplate(headers: seq<string>, intro: seq<string>, qaText: string, request: string,
                              strengths: seq<string>, weaknesses: seq<string>, recommendations: seq<string>,
                              feedback: string, criteria: seq<string>): seq<string>
    requires |headers| == 5
  {
    intro + [qaText, "", request, "", headers[0] + " [0-100]", ""]
    + ([headers[1]] + strengths + [""])
    + ([headers[2]] + weaknesses + [""])
    + ([headers[3]] + recommendations + [""])
    + [headers[4], feedback, ""]
    + criteria
  }

  /** The section patterns in the order `parseEvaluation` reads them. */
  const Patterns: seq<Pattern> := [Score, Strengths, Weaknesses, Recommendations, Feedback]

  /** The five headers of `lang`, in the order of `Patterns`. */
  function Headers(lang: Language): (r: seq<string>)
    ensures |r| == 5 && forall i :: 0 <= i < 5 ==> r[i] == Header(Patterns[i], lang)
  {
    [Header(Score, lang), Header(Strengths, lang), Header(Weaknesses, lang),
     Header(Recommendations, lang), Header(Feedback, lang)]
  }

  /** The opening sentence of the evaluation prompt. */
  function Opening(lang: Language, profession: string, d: string): string {
    match lang
    case English => "Evaluate the following interview" + " answers for a " + profession + " position at " + d + "."
    case Turkish => profession + " pozisyonu için " + d + " mülakat cevaplarını" + " değerlendir."
  }

  /** The fixed words of the introduction, in `lang`. */
  function DetailsTitle(lang: Language): string {
    match lang
    case English => "Interview Details:"
    case Turkish => "Mülakat Detayları:"
  }

  function PositionLabel(lang: Language): string {
    match lang
    case English => "Position"
    case Turkish => "Pozisyon"
  }

  function DifficultyLabel(lang: Language): string {
    match lang
    case English => "Difficulty"
    case Turkish => "Zorluk"
  }

  /** The language line: the English template names the language, the Turkish
      one always says Turkish in Turkish. */
  function LanguageLine(lang: Language): string {
    match lang
    case English => "- Language: English"
    case Turkish => "- Dil: Türkçe"
  }

  /** The start of the position line, up to the profession. */
  function PositionPrefix(lang: Language): string {
    "- " + PositionLabel(lang) + ": "
  }

  /** The start of the difficulty line, up to the difficulty. */
  function DifficultyPrefix(lang: Language): string {
    "- " + DifficultyLabel(lang) + ": "
  }

  function QaTitle(lang: Language): string {
    match lang
    case English => "Questions and Answers:"
    case Turkish => "Sorular ve Cevaplar:"
  }

  /** The eight lines before the Q&A text. */
  function EvaluationIntro(lang: Language, profession: string, d: string): seq<string> {
    [ Opening(lang, profession, d),
      "",
      DetailsTitle(lang),
      PositionPrefix(lang) + profession,
      DifficultyPrefix(lang) + d,
      LanguageLine(lang),
      "",
      QaTitle(lang) ]
  }

  /** The request that introduces the format, in `lang`. */
  function FormatRequest(lang: Language): string {
    match lang
    case English => "Please provide a comprehensive" + " evaluation in the following format:"
    case Turkish => "Lütfen değerlendirmeyi aşağıdaki" + " formatta sağlayın:"
  }

  /** What a placeholder bullet of section `p` names, in `lang`. */
  function PlaceholderNoun(p: Pattern, lang: Language): string {
    match lang
    case English =>
      (match p
       case Strengths => "Strength"
       case Weaknesses => "Weakness"
       case _ => "Recommendation")
    case Turkish =>
      (match p
       case Strengths => "Güçlü Yön"
       case Weaknesses => "Zayıf Yön"
       case _ => "Öneri")
  }

  /** `- [Strength 1]` and its kind. */
  function Placeholder(p: Pattern, lang: Language, n: nat): string {
    "- [" + PlaceholderNoun(p, lang) + " " + NatToString(n) + "]"
  }

  /** The three placeholder bullets of a list section. */
  function Placeholders(p: Pattern, lang: Language): seq<string> {
    [Placeholder(p, lang, 1), Placeholder(p, lang, 2), Placeholder(p, lang, 3)]
  }

  /** The placeholder under the detailed feedback header. */
  function FeedbackPlaceholder(lang: Language): string {
    match lang
    case English =>
      "[Provide detailed feedback about" + " the candidate's performance," + " highlighting specific answers"
      + " and areas for improvement." + " This should be 2-3 paragraphs.]"
    case Turkish =>
      "[Adayın performansı hakkında" + " detaylı geri bildirim, özellikle" + " cevapları ve geliştirilmesi"
      + " gereken alanları vurgulayarak." + " Bu 2-3 paragraf olmalı.]"
  }

  /** The title of the closing list of criteria. */
  function CriteriaTitle(lang: Language): string {
    match lang
    case English => "Evaluate based on:"
    case Turkish => "Şu kriterlere göre değerlendir:"
  }

  /** The `n`-th of the six criteria, as a bullet. */
  function Criterion(lang: Language, n: nat): string {
    match lang
    case English =>
      if n == 1 then "- Technical knowledge and accuracy"
      else if n == 2 then "- Communication skills"
      else if n == 3 then "- Problem-solving approach"
      else if n == 4 then "- Relevance of answers"
      else if n == 5 then "- Depth of understanding"
      else "- Professional presentation"
    case Turkish =>
      if n == 1 then "- Teknik bilgi ve doğruluk"
      else if n == 2 then "- İletişim becerileri"
      else if n == 3 then "- Problem çözme yaklaşımı"
      else if n == 4 then "- Cevapların konuyla ilgisi"
      else if n == 5 then "- Konuya hakimiyet"
      else "- Profesyonel sunum"
  }

  function Criteria(lang: Language): seq<string> {
    [CriteriaTitle(lang), Criterion(lang, 1), Criterion(lang, 2), Criterion(lang, 3),
     Criterion(lang, 4), Criterion(lang, 5), Criterion(lang, 6)]
  }

  /** The template of the configured language. */
  function EvaluationTemplateOf(c: InterviewConfig, qaText: string): seq<string> {
    var lang := c.language;
    EvaluationTemplate(Headers(lang), EvaluationIntro(lang, c.profession, DifficultyText(c)), qaText,
      FormatRequest(lang),
      Placeholders(Strengths, lang), Placeholders(Weaknesses, lang), Placeholders(Recommendations, lang),
      FeedbackPlaceholder(lang), Criteria(lang))
  }

  /** The indentation of the template lines in the source text. */
  const SourceIndent: string := "            "

  /** The indentation each template line keeps in the prompt: none without
      pairs, all twelve spaces with pairs, because each pair's `Answer:` line
      starts at column 0.  `PromptIndentation.CommonIndentIsMinWidth` derives
      it from what `trimIndent` cuts from the raw template, and
      `PromptIndentation.EvaluationPromptWithPairs` and `WithoutPairs` show
      the resulting prompt. */
  function CommonIndent(qas: seq<QuestionAnswer>): string {
    if qas == [] then [] else SourceIndent
  }

  /** The lines of the prompt after `trimIndent`. */
  function EvaluationPromptLines(c: InterviewConfig, qas: seq<QuestionAnswer>): seq<string> {
    Indented(CommonIndent(qas), EvaluationTemplateOf(c, QaText(qas)))
  }

  /** `createEvaluationPrompt(config, questionsAndAnswers)` */
  function CreateEvaluationPrompt(c: InterviewConfig, qas: seq<QuestionAnswer>): string {
    Join(EvaluationPromptLines(c, qas))
  }

  /** The pairs appear in the Q&A text in their order, the `i`-th numbered
      `i + 1`, none overlapping the next. */
  lemma QaTextListsPairsInOrder(qas: seq<QuestionAnswer>)
    ensures forall i :: 0 <= i < |qas| ==>
      InfixAt(QaBlock(i + 1, qas[i]), QaText(qas), Offset(QaBlocks(qas, 1), i))
    ensures forall i, j :: 0 <= i < j < |qas| ==>
      Offset(QaBlocks(qas, 1), i) + |QaBlock(i + 1, qas[i])| < Offset(QaBlocks(qas, 1), j)
  {
    var blocks := QaBlocks(qas, 1);
    forall i | 0 <= i < |qas|
      ensures InfixAt(QaBlock(i + 1, qas[i]), QaText(qas), Offset(blocks, i))
    {
      LineAt(blocks, i);
    }
    forall i, j | 0 <= i < j < |qas|
      ensures Offset(blocks, i) + |QaBlock(i + 1, qas[i])| < Offset(blocks, j)
    {
      OffsetIncreasing(blocks, i, j);
    }
  }

  /** Where the Q&A text and the headers sit among the template lines. */
  predicate FormatShape(lines: seq<string>, intro: seq<string>, qaText: string, headers: seq<string>) {
    |lines| == 39 && |headers| == 5 && |intro| == 8 && lines[..8] == intro && lines[8] == qaText
    && lines[12] == headers[0] + " [0-100]"
    && lines[14] == headers[1] && lines[19] == headers[2]
    && lines[24] == headers[3] && lines[29] == headers[4]
  }

  /** The same places, each line behind `indent`. */
  predicate IndentedShape(lines: seq<string>, indent: string, intro: seq<string>, qaText: string,
                          headers: seq<string>) {
    |lines| == 39 && |headers| == 5 && |intro| == 8
    && (forall i :: 0 <= i < 8 ==> lines[i] == indent + intro[i])
    && lines[8] == indent + qaText
    && lines[12] == indent + headers[0] + " [0-100]"
    && lines[14] == indent + headers[1] && lines[19] == indent + headers[2]
    && lines[24] == indent + headers[3] && lines[29] == indent + headers[4]
  }

  lemma IndentedKeepsShape(lines: seq<string>, indent: string, intro: seq<string>, qaText: string,
                           headers: seq<string>)
    requires FormatShape(lines, intro, qaText, headers)
    ensures IndentedShape(Indented(indent, lines), indent, intro, qaText, headers)
  {
    var r := Indented(indent, lines);
    forall i | 0 <= i < 8 ensures r[i] == indent + intro[i] {
      assert lines[i] == lines[..8][i];
    }
    assert r[12] == indent + (headers[0] + " [0-100]");
  }

  lemma TemplateShape(headers: seq<string>, intro: seq<string>, qaText: string, request: string,
                      strengths: seq<string>, weaknesses: seq<string>, recommendations: seq<string>,
                      feedback: string, criteria: seq<string>)
    requires |headers| == 5 && |intro| == 8 && |criteria| == 7
    requires |strengths| == 3 && |weaknesses| == 3 && |recommendations| == 3
    ensures FormatShape(EvaluationTemplate(headers, intro, qaText, request, strengths, weaknesses,
                                           recommendations, feedback, criteria), intro, qaText, headers)
  {
  }

  lemma TemplateOfShape(c: InterviewConfig, qaText: string)
    ensures FormatShape(EvaluationTemplateOf(c, qaText), EvaluationIntro(c.language, c.profession, DifficultyText(c)),
                        qaText, Headers(c.language))
  {
    var lang := c.language;
    TemplateShape(Headers(lang), EvaluationIntro(lang, c.profession, DifficultyText(c)), qaText,
      FormatRequest(lang),
      Placeholders(Strengths, lang), Placeholders(Weaknesses, lang), Placeholders(Recommendations, lang),
      FeedbackPlaceholder(lang), Criteria(lang));
  }

  lemma EvaluationLinesShape(c: InterviewConfig, qas: seq<QuestionAnswer>)
    ensures IndentedShape(EvaluationPromptLines(c, qas), CommonIndent(qas),
                          EvaluationIntro(c.language, c.profession, DifficultyText(c)),
                          QaText(qas), Headers(c.language))
  {
    var intro := EvaluationIntro(c.language, c.profession, DifficultyText(c));
    TemplateOfShape(c, QaText(qas));
    IndentedKeepsShape(EvaluationTemplateOf(c, QaText(qas)), CommonIndent(qas), intro, QaText(qas),
                       Headers(c.language));
  }

  /** A line of `prompt` starts at `k` with `indent` followed by `h`. */
  predicate HeaderLine(prompt: string, indent: string, h: string, k: int) {
    InfixAt(indent + h, prompt, k) && 0 < k && prompt[k - 1] == '\n'
  }

  /** A line `indent + h + rest` starts with `indent + h`. */
  lemma HeaderOnLine(lines: seq<string>, k: nat, indent: string, h: string, rest: string)
    requires 0 < k < |lines| && lines[k] == indent + h + rest
    ensures HeaderLine(Join(lines), indent, h, Offset(lines, k))
  {
    InfixOfConcat([], indent + h, rest);
    assert [] + (indent + h) + rest == lines[k];
    LineAt(lines, k);
    InfixTrans(indent + h, lines[k], Join(lines), 0, Offset(lines, k));
  }

  /** A line `indent + h` starts with `indent + h`. */
  lemma HeaderAloneOnLine(lines: seq<string>, k: nat, indent: string, h: string)
    requires 0 < k < |lines| && lines[k] == indent + h
    ensures HeaderLine(Join(lines), indent, h, Offset(lines, k))
  {
    assert lines[k] == indent + h + [];
    HeaderOnLine(lines, k, indent, h, []);
  }

  /** `t` follows `indent + x` on line `k`, so it occurs in the joined text. */
  lemma OccursAfterPrefix(t: string, indent: string, x: string, lines: seq<string>, k: nat)
    requires k < |lines| && lines[k] == indent + (x + t)
    ensures Occurs(t, Join(lines))
  {
    assert indent + (x + t) == indent + x + t;
    OccursEndOfLine(t, indent + x, lines, k);
  }

  lemma IntroFields(lang: Language, profession: string, d: string)
    ensures |EvaluationIntro(lang, profession, d)| == 8
    ensures EvaluationIntro(lang, profession, d)[3] == PositionPrefix(lang) + profession
    ensures EvaluationIntro(lang, profession, d)[4] == DifficultyPrefix(lang) + d
  {
  }

  /** Lines that open with an indented introduction name its profession and difficulty. */
  lemma IntroMentions(lines: seq<string>, indent: string, intro: seq<string>, lang: Language,
                      profession: string, d: string)
    requires 8 <= |lines| && |intro| == 8 && forall i :: 0 <= i < 8 ==> lines[i] == indent + intro[i]
    requires intro[3] == PositionPrefix(lang) + profession && intro[4] == DifficultyPrefix(lang) + d
    ensures Occurs(profession, Join(lines)) && Occurs(d, Join(lines))
  {
    OccursAfterPrefix(profession, indent, PositionPrefix(lang), lines, 3);
    OccursAfterPrefix(d, indent, DifficultyPrefix(lang), lines, 4);
  }

  /** `prompt` holds `qaText` at `q` and then, on lines starting at `ks` in
      this order, the five `headers`, each behind `indent`. */
  predicate HeadersLaidOut(prompt: string, indent: string, qaText: string, headers: seq<string>,
                           q: nat, ks: seq<nat>) {
    InfixAt(qaText, prompt, q)
    && |headers| == 5 && |ks| == 5 && q + |qaText| < ks[0]
    && HeaderLine(prompt, indent, headers[0], ks[0]) && HeaderLine(prompt, indent, headers[1], ks[1])
    && HeaderLine(prompt, indent, headers[2], ks[2]) && HeaderLine(prompt, indent, headers[3], ks[3])
    && HeaderLine(prompt, indent, headers[4], ks[4])
    && ks[0] < ks[1] < ks[2] < ks[3] < ks[4]
  }

  /** The Q&A text sits on line 8, behind `indent`, before line 12 begins. */
  lemma QaLine(lines: seq<string>, indent: string, qaText: string) returns (q: nat)
    requires 12 < |lines| && lines[8] == indent + qaText
    ensures InfixAt(qaText, Join(lines), q) && q + |qaText| < Offset(lines, 12)
  {
    assert lines[8] == indent + qaText + [];
    InfixOfConcat(indent, qaText, []);
    LineAt(lines, 8);
    InfixTrans(qaText, lines[8], Join(lines), |indent|, Offset(lines, 8));
    q := Offset(lines, 8) + |indent|;
    OffsetIncreasing(lines, 8, 12);
  }

  lemma HeaderLines(lines: seq<string>, indent: string, headers: seq<string>)
    returns (ks: seq<nat>)
    requires |lines| == 39 && |headers| == 5
    requires lines[12] == indent + headers[0] + " [0-100]"
    requires lines[14] == indent + headers[1] && lines[19] == indent + headers[2]
    requires lines[24] == indent + headers[3] && lines[29] == indent + headers[4]
    ensures |ks| == 5 && ks[0] == Offset(lines, 12)
    ensures var p := Join(lines);
      HeaderLine(p, indent, headers[0], ks[0]) && HeaderLine(p, indent, headers[1], ks[1])
      && HeaderLine(p, indent, headers[2], ks[2]) && HeaderLine(p, indent, headers[3], ks[3])
      && HeaderLine(p, indent, headers[4], ks[4])
    ensures ks[0] < ks[1] < ks[2] < ks[3] < ks[4]
  {
    HeaderOnLine(lines, 12, indent, headers[0], " [0-100]");
    HeaderAloneOnLine(lines, 14, indent, headers[1]);
    HeaderAloneOnLine(lines, 19, indent, headers[2]);
    HeaderAloneOnLine(lines, 24, indent, headers[3]);
    HeaderAloneOnLine(lines, 29, indent, headers[4]);
    OffsetIncreasing(lines, 12, 14);
    OffsetIncreasing(lines, 14, 19);
    OffsetIncreasing(lines, 19, 24);
    OffsetIncreasing(lines, 24, 29);
    ks := [Offset(lines, 12), Offset(lines, 14), Offset(lines, 19), Offset(lines, 24), Offset(lines, 29)];
  }

  lemma ShapeHeaders(lines: seq<string>, indent: string, intro: seq<string>, qaText: string, headers: seq<string>)
    returns (q: nat, ks: seq<nat>)
    requires IndentedShape(lines, indent, intro, qaText, headers)
    ensures HeadersLaidOut(Join(lines), indent, qaText, headers, q, ks)
  {
    q := QaLine(lines, indent, qaText);
    ks := HeaderLines(lines, indent, headers);
  }

  /** The evaluation prompt shows the answers first and then the five section
      headers `parseEvaluation` looks for, in the configured language, in the
      order score, strengths, weaknesses, recommendations, detailed feedback,
      each at the start of its own line behind the indentation `trimIndent`
      leaves. */
  lemma EvaluationPromptHeaders(c: InterviewConfig, qas: seq<QuestionAnswer>) returns (q: nat, ks: seq<nat>)
    ensures HeadersLaidOut(CreateEvaluationPrompt(c, qas), CommonIndent(qas), QaText(qas), Headers(c.language), q, ks)
  {
    EvaluationLinesShape(c, qas);
    var intro := EvaluationIntro(c.language, c.profession, DifficultyText(c));
    q, ks := ShapeHeaders(EvaluationPromptLines(c, qas), CommonIndent(qas), intro, QaText(qas), Headers(c.language));
  }

  /** The evaluation prompt names the profession and the difficulty, the latter
      worded in the configured language. */
  lemma EvaluationPromptMentions(c: InterviewConfig, qas: seq<QuestionAnswer>)
    ensures Occurs(c.profession, CreateEvaluationPrompt(c, qas))
    ensures Occurs(DifficultyText(c), CreateEvaluationPrompt(c, qas))
  {
    var lang, d := c.language, DifficultyText(c);
    EvaluationLinesShape(c, qas);
    IntroFields(lang, c.profession, d);
    IntroMentions(EvaluationPromptLines(c, qas), CommonIndent(qas), EvaluationIntro(lang, c.profession, d),
                  lang, c.profession, d);
  }
}
