# Interview app core, modelled in Dafny

This project models the core of an Android interview-practice app. The app
asks a chat-completion API for interview questions about a profession, lets
the user answer them by typing or by voice, asks the API to evaluate the
answers, and stores the evaluation with its questions in a local database.

The model covers two source files:

- `InterviewRepository.kt` is modelled in four parts:
  - the two prompt builders (`createPrompt`, `createEvaluationPrompt`, including what `trimIndent` does to them);
  - the two reply parsers (`parseQuestions`, and `parseEvaluation` with its five regular expressions);
  - how `generateQuestions` and `evaluateAnswers` turn an API response into a `Result`;
  - the row mapping of `saveInterviewRecord` over a two-table store.
- `InterviewScreenViewModel.kt` is modelled as the screen's state machine:
  - the immutable `InterviewUiState` and pure transitions over it;
  - a class `InterviewScreenViewModel` whose fields are the view model's state flows and whose methods apply those transitions;
  - each coroutine split into a start method and a completion method that takes the repository's result.

Modules, one per file:

| file | module | contents |
|---|---|---|
| `text.dfy` | `Text` | Kotlin's `trim`, `isBlank`, `split("\n")`, the regex classes `\s`, `\d` and `.`, digit strings |
| `model.dfy` | `Model` | the value types: configuration, pairs, evaluation, database rows |
| `questions.dfy` | `QuestionParser` | `parseQuestions` and its properties |
| `evaluation.dfy` | `EvaluationParser` | `parseEvaluation`, with `Regex.find` modelled as a leftmost match |
| `evaluation_format.dfy` | `EvaluationFormat` | the evaluation format the prompt asks for, and the proof that it parses back |
| `evaluation_props.dfy` | `EvaluationProperties` | what the parser does with missing sections, missing blank lines and empty lists |
| `indent.dfy` | `Indentation` | Kotlin's `lines()` and `trimIndent()`, and when `trimIndent` removes or keeps an indentation |
| `prompts.dfy` | `Prompts` | `createPrompt` and `createEvaluationPrompt` as their template lines joined, and what they say |
| `prompt_indent.dfy` | `PromptIndentation` | the raw templates, and the proof that `trimIndent` turns them into the two prompts |
| `repository.dfy` | `Repository` | requests, response dispatch, the store and `saveInterviewRecord` |
| `session.dfy` | `Session` | the screen state, its transitions, and the view-model class |

Nothing outside the app's own logic is modelled:

- The HTTP call is an input of type `ApiCall`: either a response (success flag, status code, parsed body, error body) or a thrown exception with its message.
- The clock reading of `Date()` is a parameter, `date`.
- Speech-recogniser error codes are the `SpeechError` datatype.

Questions, answers and all text are `string`, a sequence of Dafny `char`s, each a Unicode scalar value. A Kotlin `String` is a sequence of UTF-16 code units, so a character outside the Basic Multilingual Plane is one `char` here and two units in Kotlin. Every character the operations look at is in the Basic Multilingual Plane: whitespace, line terminators, `0`-`9`, `-`, `.`, `:` and the section names. So counting characters differently changes no modelled result.

Three modelling points:

- **Whitespace.** `trim()` and `isBlank()` use Kotlin's whitespace set (`Text.IsWhitespace`). The regular-expression classes are those of the desktop JVM's `java.util.regex`: `\s` is the ASCII whitespace set (`Text.IsRegexSpace`), `\d` the ASCII digits (`Text.IsDigit`), and `.` refuses the line terminators of `Text.IsLineTerminator`. On Android the engine is backed by ICU, whose classes are wider; "## Left out" lists the members this affects.
- **Scores.** The score is read with `toIntOrNull() ?: 0`, so a digit string beyond `Int.MAX_VALUE` reads as 0.
- **Indentation.** Both prompts are raw string templates indented by twelve spaces and passed through `trimIndent` (modelled in `Indentation`). Each pair's `Answer:` line is interpolated at column 0, so with at least one pair `trimIndent` finds no common indentation: every template line keeps its twelve spaces and only the line breaks are rewritten as "\n". Without pairs, all of the indentation is removed. The `PromptIndentation` theorems prove both cases against the raw templates.

## Model

Paths are relative to the repository root.

| member | source | states |
|---|---|---|
| Text.Trim | app/src/main/java/com/yeslab/interviewapp/domain/repository/InterviewRepository.kt:127 | `trim()`; its meaning is stated by `TrimBounds`, `TrimUnique`, `TrimEmptyIffBlank` and `TrimIdempotent` below |
| Text.TrimBounds | app/src/main/java/com/yeslab/interviewapp/domain/repository/InterviewRepository.kt:127 | `trim()` keeps one contiguous slice, removes only whitespace on either side, and leaves neither end whitespace |
| Text.TrimEmptyIffBlank | app/src/main/java/com/yeslab/interviewapp/domain/repository/InterviewRepository.kt:121-125 | a string trims to empty exactly when it is blank, so `trim().isNotEmpty()` and `isNotBlank()` agree |
| Text.TrimIdempotent | app/src/main/java/com/yeslab/interviewapp/domain/repository/InterviewRepository.kt:129 | trimming twice is trimming once |
| Text.TrimUnique | app/src/main/java/com/yeslab/interviewapp/domain/repository/InterviewRepository.kt:127-129 | a trimmed core surrounded by blank text is exactly what `trim()` returns |
| Text.Split | app/src/main/java/com/yeslab/interviewapp/domain/repository/InterviewRepository.kt:124 | `split("\n")` always yields at least one piece and no piece holds a line feed |
| Text.SplitJoin | app/src/main/java/com/yeslab/interviewapp/domain/repository/InterviewRepository.kt:124 | splitting lines joined with line feeds gives the lines back |
| Text.JoinSplit | app/src/main/java/com/yeslab/interviewapp/domain/repository/InterviewRepository.kt:124 | joining the pieces of a split with line feeds gives the text back |
| Text.BlankIffLinesBlank | app/src/main/java/com/yeslab/interviewapp/domain/repository/InterviewRepository.kt:121-125 | a text is blank exactly when every line of it is blank |
| Indentation.Lines | app/src/main/java/com/yeslab/interviewapp/domain/repository/InterviewRepository.kt:105-117 | `lines()` always yields at least one line; `LinesAreSplit` and `LinesAtBreaks` say where it breaks |
| Indentation.LinesAreSplit | app/src/main/java/com/yeslab/interviewapp/domain/repository/InterviewRepository.kt:105-117 | without a carriage return, `lines()` is the split at line feeds |
| Indentation.LinesAtBreaks | app/src/main/java/com/yeslab/interviewapp/domain/repository/InterviewRepository.kt:105-117 | "\r\n", a lone "\r" and "\n" each end a line |
| Indentation.IndentWidth | app/src/main/java/com/yeslab/interviewapp/domain/repository/InterviewRepository.kt:105-117 | the indentation of a line is its leading run of whitespace, stopping at the first other character (all of a blank line) |
| Indentation.MinWidth | app/src/main/java/com/yeslab/interviewapp/domain/repository/InterviewRepository.kt:105-117 | the common indentation is absent exactly when every line is blank, and otherwise is the smallest indentation of a non-blank line |
| Indentation.TrimIndent | app/src/main/java/com/yeslab/interviewapp/domain/repository/InterviewRepository.kt:117 | `trimIndent()`: blank first and last lines dropped, the smallest indentation of the non-blank lines cut from every line; `TrimIndentRemovesIndent` and `TrimIndentKeepsColumnZero` state its two cases here |
| Indentation.MinWidthFramed | app/src/main/java/com/yeslab/interviewapp/domain/repository/InterviewRepository.kt:105-117 | between an empty first line and a blank last one, the common indentation is the least indentation of the non-blank lines in between |
| Indentation.MinWidthOfIndented | app/src/main/java/com/yeslab/interviewapp/domain/repository/InterviewRepository.kt:105-117 | lines that share one whitespace indentation, one of them starting right after it, have exactly that indentation in common |
| Indentation.MinWidthColumnZero | app/src/main/java/com/yeslab/interviewapp/domain/repository/InterviewRepository.kt:192-232 | a framed text with a non-blank line at column 0 has no common indentation |
| Indentation.TrimIndentRemovesIndent | app/src/main/java/com/yeslab/interviewapp/domain/repository/InterviewRepository.kt:105-117 | a text framed by a leading break and a blank last line, whose single-line lines share one whitespace indentation that one of them has exactly, comes out of `trimIndent` as those lines without it |
| Indentation.TrimIndentKeepsColumnZero | app/src/main/java/com/yeslab/interviewapp/domain/repository/InterviewRepository.kt:192-232 | when one line of such a framed text starts at column 0, `trimIndent` keeps every line as it is and only rewrites its line breaks as "\n" |
| Text.NatToString | app/src/main/java/com/yeslab/interviewapp/domain/repository/InterviewRepository.kt:106 | the decimal rendering of a count is a non-empty digit string whose value is the count |
| QuestionParser.NumberedRest | app/src/main/java/com/yeslab/interviewapp/domain/repository/InterviewRepository.kt:128-129 | the line matches `^\d+\..*` exactly when it is a digit run, a dot, and a rest with no line terminator; the result is the text after the first dot |
| QuestionParser.NonBlankLines | app/src/main/java/com/yeslab/interviewapp/domain/repository/InterviewRepository.kt:125 | the filter keeps only non-blank lines and never adds any |
| QuestionParser.CleanLineOrNull | app/src/main/java/com/yeslab/interviewapp/domain/repository/InterviewRepository.kt:126-134 | the `mapNotNull` lambda gives `null` exactly for a blank line; a line whose trimmed form matches `^\d+\..*` gives the text after its first dot, trimmed; any other non-blank line, including a numbered one whose rest holds a line terminator, gives itself trimmed |
| QuestionParser.MapNotNull | app/src/main/java/com/yeslab/interviewapp/domain/repository/InterviewRepository.kt:126-134 | `mapNotNull` keeps at most one item per line, each one trimmed |
| QuestionParser.MapNotNullKeepsAll | app/src/main/java/com/yeslab/interviewapp/domain/repository/InterviewRepository.kt:126-134 | on non-blank lines `mapNotNull` drops nothing: item k is the cleaned line k |
| QuestionParser.ParseQuestions | app/src/main/java/com/yeslab/interviewapp/domain/repository/InterviewRepository.kt:120-136 | null or blank text gives no questions; there are never more questions than lines; every question is trimmed |
| QuestionParser.OneQuestionPerNonBlankLine | app/src/main/java/com/yeslab/interviewapp/domain/repository/InterviewRepository.kt:123-135 | for a non-blank reply there is exactly one question per non-blank line, the k-th being that line cleaned: the `null` branch of `mapNotNull` never drops a line |
| QuestionParser.EmptyIffBlank | app/src/main/java/com/yeslab/interviewapp/domain/repository/InterviewRepository.kt:121-135 | the question list is empty exactly when the text is null or blank |
| QuestionParser.CleanNumberedLine | app/src/main/java/com/yeslab/interviewapp/domain/repository/InterviewRepository.kt:127-129 | a line of blanks, digits, a dot and a rest cleans to the trimmed rest |
| QuestionParser.ParseNumberedResponse | app/src/main/java/com/yeslab/interviewapp/domain/repository/InterviewRepository.kt:112-136 | a reply numbered `1.`, `2.`, … as the prompt asks parses back to exactly its questions, in order, whatever their number |
| QuestionParser.PlainLineKept | app/src/main/java/com/yeslab/interviewapp/domain/repository/InterviewRepository.kt:126-133 | a single-line, trimmed line that is not numbered comes back as itself |
| QuestionParser.PreambleKept | app/src/main/java/com/yeslab/interviewapp/domain/repository/InterviewRepository.kt:120-136 | an unnumbered line before a numbered reply is kept as one more question, so the list is not held to the requested count |
| QuestionParser.PreambleExample | app/src/main/java/com/yeslab/interviewapp/domain/repository/InterviewRepository.kt:120-136 | `Here are 2:` followed by two numbered lines gives three questions |
| QuestionParser.ThreeQuestionExample | app/src/main/java/com/yeslab/interviewapp/domain/repository/InterviewRepository.kt:120-136 | a concrete three-line numbered reply gives its three questions |
| EvaluationParser.HeaderEnd | app/src/main/java/com/yeslab/interviewapp/domain/repository/InterviewRepository.kt:285-306 | the alternation `(English\|Turkish):` matches at a position exactly when either header starts there, and ends just after the colon |
| EvaluationParser.ScoreDigits | app/src/main/java/com/yeslab/interviewapp/domain/repository/InterviewRepository.kt:285 | `\s*(\d+)` captures a non-empty digit run |
| EvaluationParser.FirstBlankLine | app/src/main/java/com/yeslab/interviewapp/domain/repository/InterviewRepository.kt:288 | the lazy `[\s\S]*?\n\n` stops at the first blank line at or after its start, and there is none before it |
| EvaluationParser.LazySection | app/src/main/java/com/yeslab/interviewapp/domain/repository/InterviewRepository.kt:288-300 | the list group starts after the last newline among the whitespace after the colon that has a blank line somewhere after it, and ends at the first such blank line; it holds no blank line, and it is absent exactly when no newline there has a blank line after it |
| EvaluationParser.GreedySection | app/src/main/java/com/yeslab/interviewapp/domain/repository/InterviewRepository.kt:306 | the feedback group is everything after the last newline among the whitespace after the colon, and it is absent exactly when that whitespace holds no newline |
| EvaluationParser.MatchAt | app/src/main/java/com/yeslab/interviewapp/domain/repository/InterviewRepository.kt:285-306 | a pattern matches at a position only where one of its headers starts |
| EvaluationParser.FindFrom | app/src/main/java/com/yeslab/interviewapp/domain/repository/InterviewRepository.kt:286-307 | `find` returns the leftmost match position, and there is no match before it |
| EvaluationParser.Find | app/src/main/java/com/yeslab/interviewapp/domain/repository/InterviewRepository.kt:286-307 | `find` gives null exactly when the pattern matches nowhere |
| EvaluationParser.ToIntOrNull | app/src/main/java/com/yeslab/interviewapp/domain/repository/InterviewRepository.kt:286 | a digit string converts exactly when its value fits in an `Int`, and then to that value |
| EvaluationParser.ScoreOf | app/src/main/java/com/yeslab/interviewapp/domain/repository/InterviewRepository.kt:286 | the score is the captured value when it fits in an `Int`, and 0 when it is absent or too large |
| EvaluationParser.BulletItems | app/src/main/java/com/yeslab/interviewapp/domain/repository/InterviewRepository.kt:290-292 | only bullet lines are kept, at most one item per line, each item trimmed |
| EvaluationParser.SectionItems | app/src/main/java/com/yeslab/interviewapp/domain/repository/InterviewRepository.kt:289-292 | an absent section gives no items; every item is trimmed |
| EvaluationParser.FeedbackOf | app/src/main/java/com/yeslab/interviewapp/domain/repository/InterviewRepository.kt:307 | the feedback is trimmed, and empty when the section is absent |
| EvaluationParser.ParseEvaluation | app/src/main/java/com/yeslab/interviewapp/domain/repository/InterviewRepository.kt:278-316 | null or blank text gives the fallback evaluation; the score lies in 0..Int.MAX_VALUE; every item and the feedback are trimmed |
| EvaluationFormat.NoMarkerIsSuffix | app/src/main/java/com/yeslab/interviewapp/domain/repository/InterviewRepository.kt:285-306 | no section name, in either language, ends another section's name, so one header never matches inside another |
| EvaluationFormat.HeaderFound | app/src/main/java/com/yeslab/interviewapp/domain/repository/InterviewRepository.kt:285-306 | a header of either language is recognised where it starts |
| EvaluationFormat.ListSectionMatches | app/src/main/java/com/yeslab/interviewapp/domain/repository/InterviewRepository.kt:288-300 | a list header, a line feed, bullet lines and a blank line capture exactly the bullet lines |
| EvaluationFormat.ScoreSectionMatches | app/src/main/java/com/yeslab/interviewapp/domain/repository/InterviewRepository.kt:285 | `SCORE: n` captures the digits of n |
| EvaluationFormat.FeedbackSectionMatches | app/src/main/java/com/yeslab/interviewapp/domain/repository/InterviewRepository.kt:306 | the feedback header and a line feed capture all the feedback that follows |
| EvaluationFormat.BulletItemRoundTrip | app/src/main/java/com/yeslab/interviewapp/domain/repository/InterviewRepository.kt:291-292 | a `- item` line is kept as a bullet and yields the item back |
| EvaluationFormat.SectionItemsOfBullets | app/src/main/java/com/yeslab/interviewapp/domain/repository/InterviewRepository.kt:289-292 | the bullet lines of a list yield exactly that list |
| EvaluationFormat.ScoreFound | app/src/main/java/com/yeslab/interviewapp/domain/repository/InterviewRepository.kt:285-286 | in the requested format the score pattern finds the score's digits |
| EvaluationFormat.StrengthsFound | app/src/main/java/com/yeslab/interviewapp/domain/repository/InterviewRepository.kt:288-289 | in the requested format the strengths pattern finds exactly the strengths' bullet lines |
| EvaluationFormat.WeaknessesFound | app/src/main/java/com/yeslab/interviewapp/domain/repository/InterviewRepository.kt:294-295 | in the requested format the weaknesses pattern finds exactly the weaknesses' bullet lines |
| EvaluationFormat.RecommendationsFound | app/src/main/java/com/yeslab/interviewapp/domain/repository/InterviewRepository.kt:300-301 | in the requested format the recommendations pattern finds exactly the recommendations' bullet lines |
| EvaluationFormat.FeedbackFound | app/src/main/java/com/yeslab/interviewapp/domain/repository/InterviewRepository.kt:306-307 | in the requested format the feedback pattern finds exactly the feedback |
| EvaluationFormat.RenderedIsTrimmed | app/src/main/java/com/yeslab/interviewapp/domain/repository/InterviewRepository.kt:279-283 | an evaluation written in the format is not blank and is unchanged by the initial `trim()` |
| EvaluationFormat.ParseRendered | app/src/main/java/com/yeslab/interviewapp/domain/repository/InterviewRepository.kt:278-316 | an evaluation with a score that fits in an `Int`, non-empty lists, items that are trimmed and hold neither a line feed nor a colon (an item may be empty), and a non-empty trimmed feedback, written in the format the prompt asks for in either language, parses back to itself; the colon is excluded because an item could otherwise carry a later section's header |
| EvaluationProperties.ScoreDigitsAfter | app/src/main/java/com/yeslab/interviewapp/domain/repository/InterviewRepository.kt:285 | `\s*` skips any run of regex whitespace, including line feeds, before the digits |
| EvaluationProperties.ScoreAfterHeader | app/src/main/java/com/yeslab/interviewapp/domain/repository/InterviewRepository.kt:283-286 | a text starting with the score header reads the digits after it, or 0 when they exceed `Int.MAX_VALUE` |
| EvaluationProperties.AbsentHeaderNotFound | app/src/main/java/com/yeslab/interviewapp/domain/repository/InterviewRepository.kt:285-306 | without its header in either language a pattern finds nothing |
| EvaluationProperties.ListNeedsBlankLine | app/src/main/java/com/yeslab/interviewapp/domain/repository/InterviewRepository.kt:288-304 | a list pattern finds nothing in a text without a blank line |
| EvaluationProperties.MissingSections | app/src/main/java/com/yeslab/interviewapp/domain/repository/InterviewRepository.kt:283-307 | a section whose header is absent reads as score 0, an empty list or empty feedback |
| EvaluationProperties.NoBlankLineNoLists | app/src/main/java/com/yeslab/interviewapp/domain/repository/InterviewRepository.kt:288-304 | a reply without a blank line has all three lists empty |
| EvaluationProperties.EmptyStrengthsReadWeaknesses | app/src/main/java/com/yeslab/interviewapp/domain/repository/InterviewRepository.kt:288-292 | when the strengths section is empty, the lazy group runs on into the next section and the strengths read as the weaknesses |
| Prompts.QuestionPromptMentions | app/src/main/java/com/yeslab/interviewapp/domain/repository/InterviewRepository.kt:93-117 | the question prompt names the question count, the profession, the difficulty and the language |
| Prompts.QuestionPromptEndsWithNumbering | app/src/main/java/com/yeslab/interviewapp/domain/repository/InterviewRepository.kt:116-117 | the question prompt's last line asks for exactly the configured number of questions, numbered from 1 |
| Prompts.CreatePrompt | app/src/main/java/com/yeslab/interviewapp/domain/repository/InterviewRepository.kt:93-117 | the question prompt; `QuestionPromptIsTrimmedTemplate` proves it is what `trimIndent` makes of the source template, and `QuestionPromptMentions` and `QuestionPromptEndsWithNumbering` state what it says |
| PromptIndentation.QuestionPromptIsTrimmedTemplate | app/src/main/java/com/yeslab/interviewapp/domain/repository/InterviewRepository.kt:105-117 | for a single-line profession, `trimIndent` of the twelve-space template, with its opening break and closing eight spaces, is exactly the question prompt |
| Prompts.QaBlocks | app/src/main/java/com/yeslab/interviewapp/domain/repository/InterviewRepository.kt:187-188 | pair i is rendered as `Question i+1: …` followed by `Answer: …`, one block per pair |
| Prompts.QaTextListsPairsInOrder | app/src/main/java/com/yeslab/interviewapp/domain/repository/InterviewRepository.kt:187-189 | every pair's block appears in the Q&A text, numbered from 1, in order and without overlap |
| Prompts.EvaluationPromptHeaders | app/src/main/java/com/yeslab/interviewapp/domain/repository/InterviewRepository.kt:191-275 | the evaluation prompt holds the Q&A text, then the five parser headers in the configured language, in reading order, each at the start of its own line |
| Prompts.EvaluationPromptMentions | app/src/main/java/com/yeslab/interviewapp/domain/repository/InterviewRepository.kt:181-239 | the evaluation prompt names the profession and the difficulty, worded in the configured language |
| Prompts.CreateEvaluationPrompt | app/src/main/java/com/yeslab/interviewapp/domain/repository/InterviewRepository.kt:172-275 | the evaluation prompt; the three `PromptIndentation` theorems below relate it to `trimIndent` of the source template, and `EvaluationPromptHeaders` and `EvaluationPromptMentions` state what it says |
| PromptIndentation.CommonIndentIsMinWidth | app/src/main/java/com/yeslab/interviewapp/domain/repository/InterviewRepository.kt:187-274 | the indentation the evaluation prompt's lines keep is the twelve source spaces less the common indentation `trimIndent` computes for the raw template: all twelve are cut without pairs (single-line profession), none with pairs |
| PromptIndentation.EvaluationPromptWithoutPairs | app/src/main/java/com/yeslab/interviewapp/domain/repository/InterviewRepository.kt:192-232 | without pairs and for a single-line profession, `trimIndent` of the raw template of either language is exactly the evaluation prompt, every line without its twelve spaces |
| PromptIndentation.EvaluationPromptWithPairs | app/src/main/java/com/yeslab/interviewapp/domain/repository/InterviewRepository.kt:192-232 | with pairs, the first `Answer:` line starts at column 0, so `trimIndent` removes no indentation and yields the prompt with each line break rewritten as "\n" |
| PromptIndentation.EvaluationPromptWithPairsUnchanged | app/src/main/java/com/yeslab/interviewapp/domain/repository/InterviewRepository.kt:192-274 | with pairs, and no carriage return in the profession or the pairs, `trimIndent` of the raw template is exactly the evaluation prompt |
| Repository.QuestionsRequestAsks | app/src/main/java/com/yeslab/interviewapp/domain/repository/InterviewRepository.kt:62-69 | the question request goes to the chat model with a 1500-token limit as one user message; that message names the count and the profession and ends by asking for the questions numbered 1 to the count |
| Repository.EvaluationRequestCarries | app/src/main/java/com/yeslab/interviewapp/domain/repository/InterviewRepository.kt:143-150 | the evaluation request goes to the chat model with a 2000-token limit as one user message, the evaluation prompt, in which every pair's numbered block appears in order |
| Repository.FirstContent | app/src/main/java/com/yeslab/interviewapp/domain/repository/InterviewRepository.kt:80 | the content read is the first choice's, and null when there are no choices |
| Repository.Dispatch | app/src/main/java/com/yeslab/interviewapp/domain/repository/InterviewRepository.kt:78-90 | success exactly when the response is successful and has a body, carrying the parsed first content; otherwise the exception's message, `API Error: code - body`, or `Empty response` |
| Repository.GenerateQuestions | app/src/main/java/com/yeslab/interviewapp/domain/repository/InterviewRepository.kt:75-90 | the outcome of `generateQuestions`; `Dispatch`, `NoChoices`, `SuccessfulResultsWellFormed` and `QuestionsReplyRoundTrip` state it |
| Repository.EvaluateAnswers | app/src/main/java/com/yeslab/interviewapp/domain/repository/InterviewRepository.kt:152-169 | the outcome of `evaluateAnswers`; `Dispatch`, `NoChoices`, `SuccessfulResultsWellFormed` and `EvaluationReplyRoundTrip` state it |
| Repository.NoChoices | app/src/main/java/com/yeslab/interviewapp/domain/repository/InterviewRepository.kt:79-83 | a successful reply with no choices is a success: no questions, or the fallback evaluation |
| Repository.SuccessfulResultsWellFormed | app/src/main/java/com/yeslab/interviewapp/domain/repository/InterviewRepository.kt:78-83 | successful questions are trimmed, and a successful score lies in 0..Int.MAX_VALUE |
| Repository.QuestionsReplyRoundTrip | app/src/main/java/com/yeslab/interviewapp/domain/repository/InterviewRepository.kt:62-91 | a reply numbering its questions as asked gives those questions |
| Repository.EvaluationReplyRoundTrip | app/src/main/java/com/yeslab/interviewapp/domain/repository/InterviewRepository.kt:138-170 | a reply written in the requested format gives that evaluation |
| Repository.ApiErrorCarriesCode | app/src/main/java/com/yeslab/interviewapp/domain/repository/InterviewRepository.kt:86 | the API error message starts with `API Error: ` and the status code can be read back from it |
| Repository.RecordOf | app/src/main/java/com/yeslab/interviewapp/domain/repository/InterviewRepository.kt:31-41 | the record row copies the profession, score, lists and feedback, and stores difficulty and language by their labels |
| Repository.QuestionRows | app/src/main/java/com/yeslab/interviewapp/domain/repository/InterviewRepository.kt:45-52 | one row per pair, in order, numbered from 1 and pointing at the interview's id |
| Repository.QuestionsFor | app/src/main/java/com/yeslab/interviewapp/data/local/InterviewDao.kt:28-35 | the relation yields only rows of the requested interview |
| Repository.QuestionsForAppend | app/src/main/java/com/yeslab/interviewapp/data/local/InterviewDao.kt:28-35 | the rows of an interview in two appended tables are the rows of each, in order |
| Repository.SavedQuestionsReadBack | app/src/main/java/com/yeslab/interviewapp/domain/repository/InterviewRepository.kt:43-54 | rows appended under a fresh id read back as exactly those rows |
| Repository.InterviewStore.constructor | app/src/main/java/com/yeslab/interviewapp/data/local/InterviewDatabase.kt:7-15 | a new database has both tables empty |
| Repository.InterviewStore.InsertInterviewRecord | app/src/main/java/com/yeslab/interviewapp/data/local/InterviewDao.kt:13-14 | the record is appended under a fresh id, which is returned; the question table is unchanged |
| Repository.InterviewStore.InsertInterviewQuestions | app/src/main/java/com/yeslab/interviewapp/data/local/InterviewDao.kt:16-17 | the rows are appended as given; the record table is unchanged |
| Repository.SaveInterviewRecord | app/src/main/java/com/yeslab/interviewapp/domain/repository/InterviewRepository.kt:26-55 | one record row under a fresh id, then the pairs' rows pointing at it; in a store whose rows all point at records this stays so, and the new interview's rows read back as exactly its pairs |
| Session.InitialValid | app/src/main/java/com/yeslab/interviewapp/presentation/interview/InterviewScreenViewModel.kt:17-27 | the default state has no answers, no error and no spinner, and agrees with the empty question list |
| Session.EmptyAnswers | app/src/main/java/com/yeslab/interviewapp/presentation/interview/InterviewScreenViewModel.kt:96 | one empty answer per question |
| Session.Generation | app/src/main/java/com/yeslab/interviewapp/presentation/interview/InterviewScreenViewModel.kt:84-106 | the generation coroutine from start to end; `GenerationSuccessResets`, `GenerationFailureReports` and `GenerationOutcome` state it |
| Session.GenerationSuccessResets | app/src/main/java/com/yeslab/interviewapp/presentation/interview/InterviewScreenViewModel.kt:87-98 | success puts the screen on the first question with one empty answer per question, whatever it started from; the text field and the evaluation are left as they were |
| Session.GenerationFailureReports | app/src/main/java/com/yeslab/interviewapp/presentation/interview/InterviewScreenViewModel.kt:87-104 | failure stops loading and shows the exception's message, or `Unknown error occurred`; the answers and index are kept |
| Session.GenerationOutcome | app/src/main/java/com/yeslab/interviewapp/presentation/interview/InterviewScreenViewModel.kt:84-106 | generation always stops loading, and clears the error exactly when the API responded successfully with a body |
| Session.SaveAnswer | app/src/main/java/com/yeslab/interviewapp/presentation/interview/InterviewScreenViewModel.kt:112-121 | the text field goes into the current slot and is cleared; no other slot or field changes |
| Session.AnyBlank | app/src/main/java/com/yeslab/interviewapp/presentation/interview/InterviewScreenViewModel.kt:153 | true exactly when some answer is blank |
| Session.UpdateAnswer | app/src/main/java/com/yeslab/interviewapp/presentation/interview/InterviewScreenViewModel.kt:108-110 | `updateCurrentAnswer`; `LastWriteWins` states it |
| Session.LastWriteWins | app/src/main/java/com/yeslab/interviewapp/presentation/interview/InterviewScreenViewModel.kt:108-110 | typed and spoken text go through the same update; the last one wins and nothing else changes |
| Session.NextState | app/src/main/java/com/yeslab/interviewapp/presentation/interview/InterviewScreenViewModel.kt:123-135 | `nextQuestion` on the state; `NextQuestionMoves`, `NavigationKeepsValid` and `NextThenPreviousRestores` state it |
| Session.PreviousState | app/src/main/java/com/yeslab/interviewapp/presentation/interview/InterviewScreenViewModel.kt:137-147 | `previousQuestion` on the state; `PreviousQuestionMoves` and `NavigationKeepsValid` state it |
| Session.NextQuestionMoves | app/src/main/java/com/yeslab/interviewapp/presentation/interview/InterviewScreenViewModel.kt:123-135 | below the last question `nextQuestion` saves and moves forward, showing the answer saved there; at the last it saves and completes |
| Session.PreviousQuestionMoves | app/src/main/java/com/yeslab/interviewapp/presentation/interview/InterviewScreenViewModel.kt:137-147 | above the first question `previousQuestion` saves and moves back, showing the answer saved there; at the first it only saves |
| Session.NavigationKeepsValid | app/src/main/java/com/yeslab/interviewapp/presentation/interview/InterviewScreenViewModel.kt:123-147 | moving keeps one answer slot per question and the index on a question |
| Session.NextThenPreviousRestores | app/src/main/java/com/yeslab/interviewapp/presentation/interview/InterviewScreenViewModel.kt:108-147 | typing, going forward and coming back shows the typed text again, saved in its slot |
| Session.Completion | app/src/main/java/com/yeslab/interviewapp/presentation/interview/InterviewScreenViewModel.kt:149-158 | the synchronous part of `completeInterview`; `CompletionIff` and `FreshSessionCannotComplete` state it |
| Session.CompletionIff | app/src/main/java/com/yeslab/interviewapp/presentation/interview/InterviewScreenViewModel.kt:149-164 | completion starts exactly when there are questions and no answer is blank; otherwise only the error is set |
| Session.FreshSessionCannotComplete | app/src/main/java/com/yeslab/interviewapp/presentation/interview/InterviewScreenViewModel.kt:90-158 | straight after generation, completing is refused |
| Session.Evaluation | app/src/main/java/com/yeslab/interviewapp/presentation/interview/InterviewScreenViewModel.kt:172-190 | the end of the evaluation coroutine; `EvaluationOutcome` states it |
| Session.EvaluationOutcome | app/src/main/java/com/yeslab/interviewapp/presentation/interview/InterviewScreenViewModel.kt:172-190 | evaluation always stops the spinner; it shows the parsed evaluation exactly when the call succeeded, else an error; answers are kept |
| Session.Pairs | app/src/main/java/com/yeslab/interviewapp/presentation/interview/InterviewScreenViewModel.kt:168-170 | pair i is question i with answer i |
| Session.RecordingErrorMessage | app/src/main/java/com/yeslab/interviewapp/presentation/interview/InterviewScreenViewModel.kt:62-68 | every recogniser error has a message; the generic one exactly for a code other than the four the source names; "No sound detected." exactly for no-match and timeout |
| Session.InterviewScreenViewModel.constructor | app/src/main/java/com/yeslab/interviewapp/presentation/interview/InterviewScreenViewModel.kt:33-47 | the screen starts in the default state with no questions, no configuration and no recording |
| Session.InterviewScreenViewModel.GenerateQuestions | app/src/main/java/com/yeslab/interviewapp/presentation/interview/InterviewScreenViewModel.kt:84-87 | remembers the configuration, starts loading with the error cleared, and starts one generation |
| Session.InterviewScreenViewModel.CompleteGeneration | app/src/main/java/com/yeslab/interviewapp/presentation/interview/InterviewScreenViewModel.kt:89-104 | finishes one generation: the question list becomes the result on success and is kept on failure |
| Session.InterviewScreenViewModel.RetryGeneration | app/src/main/java/com/yeslab/interviewapp/presentation/interview/InterviewScreenViewModel.kt:195-197 | the same effect as starting a generation |
| Session.InterviewScreenViewModel.UpdateCurrentAnswer | app/src/main/java/com/yeslab/interviewapp/presentation/interview/InterviewScreenViewModel.kt:108-110 | only the text field changes |
| Session.InterviewScreenViewModel.SaveCurrentAnswer | app/src/main/java/com/yeslab/interviewapp/presentation/interview/InterviewScreenViewModel.kt:112-121 | the state becomes the saved-answer state; nothing else changes |
| Session.InterviewScreenViewModel.Started | app/src/main/java/com/yeslab/interviewapp/presentation/interview/InterviewScreenViewModel.kt:149-171 | an evaluation starts exactly when completion is allowed and a configuration was chosen, and it captures that configuration and the pairs |
| Session.InterviewScreenViewModel.CompleteInterview | app/src/main/java/com/yeslab/interviewapp/presentation/interview/InterviewScreenViewModel.kt:149-171 | applies the completion rule and starts the evaluation it allows |
| Session.InterviewScreenViewModel.NextQuestion | app/src/main/java/com/yeslab/interviewapp/presentation/interview/InterviewScreenViewModel.kt:123-135 | applies the next-question rule; at the last question it may start an evaluation |
| Session.InterviewScreenViewModel.PreviousQuestion | app/src/main/java/com/yeslab/interviewapp/presentation/interview/InterviewScreenViewModel.kt:137-147 | applies the previous-question rule; the index stays on a question |
| Session.InterviewScreenViewModel.CompleteEvaluation | app/src/main/java/com/yeslab/interviewapp/presentation/interview/InterviewScreenViewModel.kt:172-190 | finishes one evaluation: on success it stores the record and question rows of the captured configuration and pairs under the next id, which advances by one, then shows the evaluation; on failure it stores nothing and the next id is unchanged |
| Session.InterviewScreenViewModel.StartVoiceInput | app/src/main/java/com/yeslab/interviewapp/presentation/interview/InterviewScreenViewModel.kt:52-55 | recording starts with the error cleared |
| Session.InterviewScreenViewModel.OnSpeechResult | app/src/main/java/com/yeslab/interviewapp/presentation/interview/InterviewScreenViewModel.kt:57-59 | a recognised phrase replaces the text field, as typing does |
| Session.InterviewScreenViewModel.OnSpeechError | app/src/main/java/com/yeslab/interviewapp/presentation/interview/InterviewScreenViewModel.kt:60-68 | recording stops and the error's message is shown |
| Session.InterviewScreenViewModel.OnReadyForSpeech | app/src/main/java/com/yeslab/interviewapp/presentation/interview/InterviewScreenViewModel.kt:70-72 | the recording error is cleared |
| Session.InterviewScreenViewModel.OnEndOfSpeech | app/src/main/java/com/yeslab/interviewapp/presentation/interview/InterviewScreenViewModel.kt:73-75 | recording stops, and the error is kept |
| Session.InterviewScreenViewModel.StopVoiceInput | app/src/main/java/com/yeslab/interviewapp/presentation/interview/InterviewScreenViewModel.kt:79-82 | recording stops, and the error is kept |

## Left out

- The network: Retrofit, the base URL, the API key and the `Authorization` header are not modelled. The call's outcome is the `ApiCall` input, and an exception thrown inside the repository's `try` is folded into `Threw`.
- The request's `temperature` (0.7 and 0.3) is a `Double` and is not part of `GptRequest`.
- JSON: the record keeps its three lists as lists. Gson's encoding of them, and the type converters, are not modelled.
- Room: SQL, the `ORDER BY date DESC` query and the question table's own auto-generated row id are not modelled. The store is two sequences. Record ids come from a counter starting at 1, which stands for SQLite's auto-increment on a new database.
- A failure of the DAO inside `onSuccess` (an exception from `saveInterviewRecord`) is not modelled: a successful evaluation always stores its rows.
- The clock: `Date()` is the `date` parameter of `SaveInterviewRecord` and `CompleteEvaluation`.
- Coroutines and `StateFlow`: each `viewModelScope.launch` runs on the main dispatcher and runs without suspension up to the API call. That first part is the start method (`GenerateQuestions`, `CompleteInterview`), and the rest is the completion method (`CompleteGeneration`, `CompleteEvaluation`), called later with the repository's result. Interleavings of several pending coroutines are modelled only as the order in which completions are called.
- When `interviewConfig` is null, `completeInterview` sets `isEvaluating` and starts no evaluation, so the spinner stays on. The model keeps this behaviour.
- `onCleared` and the `SpeechManager` itself (starting and stopping the Android recogniser) are not modelled; the recogniser's callbacks are the `On…` methods. Error codes are the `SpeechError` datatype rather than Android's integer constants.
- Session.InterviewScreenViewModel.SaveCurrentAnswer: requires the index to name an answer slot. The source throws `IndexOutOfBoundsException` when there are no answers, and that path is not modelled.
- Session.InterviewScreenViewModel.NextQuestion: requires the index to name an answer slot, for the same reason as `SaveCurrentAnswer`, which it calls first.
- Session.InterviewScreenViewModel.PreviousQuestion: requires the index to name an answer slot, for the same reason as `SaveCurrentAnswer`, which it calls first.
- Prompts.CreatePrompt: is the template lines joined with "\n". It equals `trimIndent` of the source template only for a profession without a line break, which is what `QuestionPromptIsTrimmedTemplate` requires; a profession with a line break or a carriage return would let `trimIndent` split and re-indent inside it.
- Prompts.CreateEvaluationPrompt: the same holds without pairs (`EvaluationPromptWithoutPairs`). With pairs it keeps the carriage returns of the profession and the pairs, where `trimIndent` rewrites every "\r\n" and lone "\r" as "\n"; `EvaluationPromptWithPairs` states that relation, and `EvaluationPromptWithPairsUnchanged` the exact equality without carriage returns.
- The home screen's limits on the configuration (a non-empty profession and 3 to 10 questions) are not preconditions here. Every operation is modelled for any configuration.
- QuestionParser.NumberedRest: uses the desktop JVM's `\d` and `.`; on Android `\d` also matches non-ASCII decimal digits (so `١. q` is numbered there and not here) and `.` also refuses U+000B and U+000C.
- QuestionParser.ParseQuestions: inherits the `NumberedRest` difference, so a line numbered with non-ASCII digits is kept whole here and stripped of its number on Android.
- EvaluationParser.ScoreDigits: `\s` and `\d` are the ASCII classes; on Android `\s` also skips Unicode white space such as U+00A0 and `\d` reads non-ASCII digits, which `toIntOrNull` then converts too.
- EvaluationParser.LazySection: the `\s*` before the section's line feed is ASCII here and Unicode white space on Android, so for example `STRENGTHS:` followed by U+00A0, a line feed, `- a` and a blank line gives no items here but `a` on Android.
- EvaluationParser.GreedySection: the same `\s*` difference as `LazySection`, for the feedback section.
- EvaluationParser.ParseEvaluation: inherits these differences, so for example `SCORE:` followed by U+00A0 and `85` scores 0 here and 85 on Android.
- Characters outside the Basic Multilingual Plane are one `char` here and two UTF-16 units in Kotlin, and a lone surrogate cannot be written at all. No modelled operation tests such a character, but lengths of such text differ from Kotlin's.
- Kotlin `Int` overflow in `index + 1` and in the question count is not modelled: integers are unbounded.

