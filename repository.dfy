/**
 * `InterviewRepository`: what it does with the chat-completion reply when it
 * asks for questions or for an evaluation, and how it stores a finished
 * interview.  The HTTP call is an input (`ApiCall`): either a response, or an
 * exception thrown on the way.  The local database is the `InterviewStore`
 * class, whose inserts hand out fresh ids.
 */
module Repository {
  import opened Text
  import opened Model
  import opened QuestionParser
  import opened EvaluationParser
  import opened EvaluationFormat
  import opened Prompts

  /** One choice of the reply; `message?.content`, `None` for null. */
  datatype Choice = Choice(content: Option<string>)

  datatype GptResponse = GptResponse(choices: seq<Choice>)

  /** A Retrofit response: status, code, parsed body and raw error body. */
  datatype HttpResponse = HttpResponse(
    isSuccessful: bool,
    code: int,
    body: Option<GptResponse>,
    errorBody: Option<string>)

  /** What the API call came to: a response, or an exception with its message. */
  datatype ApiCall = Responded(response: HttpResponse) | Threw(message: Option<string>)

  /** Kotlin's `Result`: a value, or a failure carrying the exception's message. */
  datatype Outcome<T> = Success(value: T) | Failure(message: Option<string>)

  datatype GptMessage = GptMessage(role: string, content: string)

  /** The request; its `Double` temperature is not part of this model. */
  datatype GptRequest = GptRequest(model: string, messages: seq<GptMessage>, maxTokens: int)

  const ChatModel: string := "gpt-4.1-nano"
  const EmptyResponse: string := "Empty response"

  /** Both calls send a single user message to the same model. */
  function UserRequest(prompt: string, maxTokens: int): (r: GptRequest)
    ensures r.model == ChatModel && r.maxTokens == maxTokens
    ensures |r.messages| == 1 && r.messages[0].role == "user" && r.messages[0].content == prompt
  {
    GptRequest(ChatModel, [GptMessage("user", prompt)], maxTokens)
  }

  /** The request `generateQuestions` sends: the question prompt, 1500 tokens. */
  function QuestionsRequest(c: InterviewConfig): (r: GptRequest)
    ensures r.model == ChatModel && r.maxTokens == 1500
    ensures |r.messages| == 1 && r.messages[0] == GptMessage("user", CreatePrompt(c))
  {
    UserRequest(CreatePrompt(c), 1500)
  }

  /** The request `evaluateAnswers` sends: the evaluation prompt, 2000 tokens. */
  function EvaluationRequest(c: InterviewConfig, qas: seq<QuestionAnswer>): (r: GptRequest)
    ensures r.model == ChatModel && r.maxTokens == 2000
    ensures |r.messages| == 1 && r.messages[0] == GptMessage("user", CreateEvaluationPrompt(c, qas))
  {
    UserRequest(CreateEvaluationPrompt(c, qas), 2000)
  }

  /** `generateQuestions` asks the chat model, in a single user message with
      a 1500-token limit, for the configured number of questions: the message
      names the count and the profession and ends with the line asking for
      exactly that many, numbered. */
  lemma QuestionsRequestAsks(c: InterviewConfig)
    ensures var r := QuestionsRequest(c);
      r.model == ChatModel && r.maxTokens == 1500 && |r.messages| == 1 && r.messages[0].role == "user"
    ensures var m, n := QuestionsRequest(c).messages[0].content, NumberingRequest(c.questionCount);
      Occurs(IntToString(c.questionCount), m) && Occurs(c.profession, m) && |n| < |m| && m[|m| - |n|..] == n
  {
    QuestionPromptMentions(c);
    QuestionPromptEndsWithNumbering(c);
  }

  /** `m` shows the Q&A text of `qas` at `q`, and with it every pair's block
      (`QaBlocks` numbers them from 1) in order. */
  predicate PairsLaidOut(m: string, qas: seq<QuestionAnswer>, q: nat) {
    InfixAt(QaText(qas), m, q)
    && forall i :: 0 <= i < |qas| ==> InfixAt(QaBlocks(qas, 1)[i], m, q + Offset(QaBlocks(qas, 1), i))
  }

  /** `evaluateAnswers` sends, in a single user message with a 2000-token
      limit, the evaluation prompt, which lays out every pair in order. */
  lemma EvaluationRequestCarries(c: InterviewConfig, qas: seq<QuestionAnswer>) returns (q: nat)
    ensures var r := EvaluationRequest(c, qas);
      r.model == ChatModel && r.maxTokens == 2000 && |r.messages| == 1 && r.messages[0].role == "user"
      && r.messages[0].content == CreateEvaluationPrompt(c, qas)
    ensures PairsLaidOut(CreateEvaluationPrompt(c, qas), qas, q)
  {
    q := QaTextInPrompt(c, qas);
    PairsWhereQaTextIs(qas, CreateEvaluationPrompt(c, qas), q);
  }

  lemma QaTextInPrompt(c: InterviewConfig, qas: seq<QuestionAnswer>) returns (q: nat)
    ensures InfixAt(QaText(qas), CreateEvaluationPrompt(c, qas), q)
  {
    var ks;
    q, ks := EvaluationPromptHeaders(c, qas);
  }

  /** Wherever the Q&A text sits, each pair's block sits at its offset in it. */
  lemma {:induction false} PairsWhereQaTextIs(qas: seq<QuestionAnswer>, m: string, q: nat)
    requires InfixAt(QaText(qas), m, q)
    ensures PairsLaidOut(m, qas, q)
  {
    var blocks := QaBlocks(qas, 1);
    forall i | 0 <= i < |qas| ensures InfixAt(blocks[i], m, q + Offset(blocks, i)) {
      LineWithin(blocks, m, q, i);
    }
  }

  /** `choices.firstOrNull()?.message?.content` */
  function FirstContent(g: GptResponse): (r: Option<string>)
    ensures g.choices == [] ==> r.None?
    ensures g.choices != [] ==> r == g.choices[0].content
  {
    if |g.choices| == 0 then None else g.choices[0].content
  }

  /** `"API Error: ${response.code()} - $errorBody"`; a null body prints as `null`. */
  function ApiErrorMessage(code: int, errorBody: Option<string>): string {
    "API Error: " + IntToString(code) + " - " + (match errorBody case None => "null" case Some(b) => b)
  }

  /** The branches shared by `generateQuestions` and `evaluateAnswers`;
      `parse` reads the first choice's content. */
  function Dispatch<T>(call: ApiCall, parse: Option<string> -> T): (r: Outcome<T>)
    ensures r.Success? <==> call.Responded? && call.response.isSuccessful && call.response.body.Some?
    ensures r.Success? ==> r.value == parse(FirstContent(call.response.body.value))
    ensures call.Threw? ==> r == Failure(call.message)
    ensures call.Responded? && !call.response.isSuccessful ==>
              r == Failure(Some(ApiErrorMessage(call.response.code, call.response.errorBody)))
    ensures call.Responded? && call.response.isSuccessful && call.response.body.None? ==>
              r == Failure(Some(EmptyResponse))
  {
    match call
    case Threw(m) => Failure(m)
    case Responded(resp) =>
      if resp.isSuccessful then
        match resp.body
        case None => Failure(Some(EmptyResponse))
        case Some(g) => Success(parse(FirstContent(g)))
      else Failure(Some(ApiErrorMessage(resp.code, resp.errorBody)))
  }

  /** `generateQuestions(config)` once the reply is in. */
  function GenerateQuestions(call: ApiCall): Outcome<seq<string>> {
    Dispatch(call, ParseQuestions)
  }

  /** `evaluateAnswers(config, questionsAndAnswers)` once the reply is in. */
  function EvaluateAnswers(call: ApiCall): Outcome<InterviewEvaluation> {
    Dispatch(call, ParseEvaluation)
  }

  /** A successful reply whose only choice carries `content`. */
  function Reply(content: Option<string>): ApiCall {
    Responded(HttpResponse(true, 200, Some(GptResponse([Choice(content)])), None))
  }

  /** A successful reply with no choices is not an error: it reads as the
      empty question list and as the fallback evaluation. */
  lemma NoChoices(code: int, errorBody: Option<string>)
    ensures var call := Responded(HttpResponse(true, code, Some(GptResponse([])), errorBody));
      GenerateQuestions(call) == Success([]) && EvaluateAnswers(call) == Success(Fallback)
  {
  }

  /** Every successful generation yields trimmed questions, and every
      successful evaluation a score between 0 and the largest `Int`. */
  lemma SuccessfulResultsWellFormed(call: ApiCall)
    ensures GenerateQuestions(call).Success? ==>
              forall k :: 0 <= k < |GenerateQuestions(call).value| ==> IsTrimmed(GenerateQuestions(call).value[k])
    ensures EvaluateAnswers(call).Success? ==> 0 <= EvaluateAnswers(call).value.overallScore <= IntMax
  {
  }

  /** A reply listing well-formed questions as `1. q1`, `2. q2`, ... gives
      back exactly those questions. */
  lemma QuestionsReplyRoundTrip(qs: seq<string>)
    requires forall k :: 0 <= k < |qs| ==> WellFormedQuestion(qs[k])
    ensures GenerateQuestions(Reply(Some(Join(NumberedLines(qs, 1))))) == Success(qs)
  {
    ParseNumberedResponse(qs);
  }

  /** A reply written in the evaluation prompt's format gives back the
      evaluation it was written from, in either language. */
  lemma EvaluationReplyRoundTrip(e: InterviewEvaluation, lang: Language)
    requires Renderable(e)
    ensures EvaluateAnswers(Reply(Some(RenderEvaluation(e, lang)))) == Success(e)
  {
    ParseRendered(e, lang);
  }

  /** The API error message carries the status code: its digits follow
      `API Error: ` and read back as the code. */
  lemma ApiErrorCarriesCode(code: nat, errorBody: Option<string>)
    ensures var m := ApiErrorMessage(code, errorBody);
      StartsWith(m, "API Error: ") && DigitsValue(m[11..11 + DigitRun(m[11..])]) == code
  {
    var ds := NatToString(code);
    var tail := " - " + (match errorBody case None => "null" case Some(b) => b);
    var m := ApiErrorMessage(code, errorBody);
    assert m == "API Error: " + (ds + tail);
    assert m[..11] == "API Error: ";
    assert m[11..] == ds + tail;
    assert tail[0] == ' ';
    DigitRunOf(ds, tail);
    assert m[11..11 + |ds|] == ds;
  }

  // ---------------------------------------------------------------------------
  // saveInterviewRecord

  /** The record row of a finished interview; `date` stands for `Date()`. */
  function RecordOf(c: InterviewConfig, e: InterviewEvaluation, date: int, id: int): (r: InterviewRecordEntity)
    ensures r.id == id && r.date == date
    ensures r.profession == c.profession
    ensures r.difficulty == c.difficulty.Label() && r.language == c.language.Label()
    ensures r.overallScore == e.overallScore && r.detailedFeedback == e.detailedFeedback
    ensures r.strengths == e.strengths && r.weaknesses == e.weaknesses
    ensures r.recommendations == e.recommendations
  {
    InterviewRecordEntity(id, date, c.profession, c.difficulty.Label(), c.language.Label(),
      e.overallScore, e.strengths, e.weaknesses, e.recommendations, e.detailedFeedback)
  }

  /** `questionsAndAnswers.mapIndexed`, numbering from `first`. */
  function QuestionRows(id: int, qas: seq<QuestionAnswer>, first: int): (r: seq<InterviewQuestionEntity>)
    ensures |r| == |qas|
    ensures forall i :: 0 <= i < |qas| ==>
      r[i] == InterviewQuestionEntity(id, first + i, qas[i].question, qas[i].answer)
    decreases |qas|
  {
    if qas == [] then []
    else [InterviewQuestionEntity(id, first, qas[0].question, qas[0].answer)] + QuestionRows(id, qas[1..], first + 1)
  }

  /** One row per pair, in order, numbered from 1, all pointing at `id`. */
  function QuestionEntities(id: int, qas: seq<QuestionAnswer>): seq<InterviewQuestionEntity> {
    QuestionRows(id, qas, 1)
  }

  /** The rows of `rows` that belong to interview `id`, in order: what the
      relation between the two tables yields for that interview. */
  function QuestionsFor(rows: seq<InterviewQuestionEntity>, id: int): (r: seq<InterviewQuestionEntity>)
    ensures |r| <= |rows|
    ensures forall k :: 0 <= k < |r| ==> r[k].interviewId == id
    decreases |rows|
  {
    if rows == [] then []
    else if rows[0].interviewId == id then [rows[0]] + QuestionsFor(rows[1..], id)
    else QuestionsFor(rows[1..], id)
  }

  lemma {:induction false} QuestionsForAppend(a: seq<InterviewQuestionEntity>, b: seq<InterviewQuestionEntity>, id: int)
    ensures QuestionsFor(a + b, id) == QuestionsFor(a, id) + QuestionsFor(b, id)
    decreases |a|
  {
    if a != [] {
      assert (a + b)[1..] == a[1..] + b;
      QuestionsForAppend(a[1..], b, id);
    } else {
      assert a + b == b;
    }
  }

  lemma {:induction false} QuestionsForNone(rows: seq<InterviewQuestionEntity>, id: int)
    requires forall k :: 0 <= k < |rows| ==> rows[k].interviewId != id
    ensures QuestionsFor(rows, id) == []
    decreases |rows|
  {
    if rows != [] {
      QuestionsForNone(rows[1..], id);
    }
  }

  lemma {:induction false} QuestionsForAll(rows: seq<InterviewQuestionEntity>, id: int)
    requires forall k :: 0 <= k < |rows| ==> rows[k].interviewId == id
    ensures QuestionsFor(rows, id) == rows
    decreases |rows|
  {
    if rows != [] {
      QuestionsForAll(rows[1..], id);
    }
  }

  /** Saving under a fresh id and reading that interview back gives exactly
      its question rows, in the order of the pairs. */
  lemma SavedQuestionsReadBack(rows: seq<InterviewQuestionEntity>, id: int, qas: seq<QuestionAnswer>)
    requires forall k :: 0 <= k < |rows| ==> rows[k].interviewId != id
    ensures QuestionsFor(rows + QuestionEntities(id, qas), id) == QuestionEntities(id, qas)
  {
    QuestionsForAppend(rows, QuestionEntities(id, qas), id);
    QuestionsForNone(rows, id);
    QuestionsForAll(QuestionEntities(id, qas), id);
    assert [] + QuestionEntities(id, qas) == QuestionEntities(id, qas);
  }

  /** The two tables of the local database.  Record ids are handed out from
      `nextId` upwards.  The question table has no foreign key: any row can be
      inserted, and `Linked` says when every row points at a stored record. */
  class InterviewStore {
    var records: seq<InterviewRecordEntity>
    var questions: seq<InterviewQuestionEntity>
    var nextId: int

    ghost predicate Valid()
      reads this
    {
      1 <= nextId
      && (forall i :: 0 <= i < |records| ==> 1 <= records[i].id < nextId)
      && (forall i, j :: 0 <= i < j < |records| ==> records[i].id < records[j].id)
    }

    /** Every question row belongs to a stored interview. */
    ghost predicate Linked()
      reads this
    {
      forall k :: 0 <= k < |questions| ==> HasRecord(records, questions[k].interviewId)
    }

    constructor()
      ensures Valid() && Linked() && records == [] && questions == [] && nextId == 1
    {
      records := [];
      questions := [];
      nextId := 1;
    }

    /** `insertInterviewRecord`: stores the record under a fresh id and returns it. */
    method InsertInterviewRecord(record: InterviewRecordEntity) returns (id: int)
      requires Valid()
      modifies this
      ensures Valid()
      ensures id == old(nextId) && nextId == id + 1
      ensures records == old(records) + [record.(id := id)] && questions == old(questions)
    {
      id := nextId;
      records := records + [record.(id := id)];
      nextId := nextId + 1;
    }

    /** `insertInterviewQuestions`: appends the rows as given. */
    method InsertInterviewQuestions(rows: seq<InterviewQuestionEntity>)
      requires Valid()
      modifies this
      ensures Valid()
      ensures questions == old(questions) + rows && records == old(records) && nextId == old(nextId)
    {
      questions := questions + rows;
    }
  }

  /** Some stored record carries `id`. */
  ghost predicate HasRecord(records: seq<InterviewRecordEntity>, id: int) {
    exists i :: 0 <= i < |records| && records[i].id == id
  }

  /** In a linked store no question row carries an id not yet handed out. */
  lemma LinkedBelowNextId(store: InterviewStore)
    requires store.Valid() && store.Linked()
    ensures forall k :: 0 <= k < |store.questions| ==> store.questions[k].interviewId < store.nextId
  {
    forall k | 0 <= k < |store.questions| ensures store.questions[k].interviewId < store.nextId {
      var id := store.questions[k].interviewId;
      assert HasRecord(store.records, id);
      var i :| 0 <= i < |store.records| && store.records[i].id == id;
    }
  }

  /** `saveInterviewRecord`: one record row, then one question row per pair,
      numbered from 1 and pointing at the record's id. */
  method SaveInterviewRecord(store: InterviewStore, c: InterviewConfig, qas: seq<QuestionAnswer>,
                             e: InterviewEvaluation, date: int)
    requires store.Valid()
    modifies store
    ensures store.Valid()
    ensures store.nextId == old(store.nextId) + 1
    ensures store.records == old(store.records) + [RecordOf(c, e, date, old(store.nextId))]
    ensures store.questions == old(store.questions) + QuestionEntities(old(store.nextId), qas)
    ensures old(store.Linked()) ==> store.Linked()
    ensures old(store.Linked()) ==>
              QuestionsFor(store.questions, old(store.nextId)) == QuestionEntities(old(store.nextId), qas)
  {
    ghost var wasLinked := store.Linked();
    if wasLinked {
      LinkedBelowNextId(store);
    }
    ghost var before := store.questions;
    var id := store.InsertInterviewRecord(RecordOf(c, e, date, 0));
    var rows := QuestionEntities(id, qas);
    ghost var last := |store.records| - 1;
    assert store.records[last].id == id;
    store.InsertInterviewQuestions(rows);
    if wasLinked {
      forall k | 0 <= k < |store.questions|
        ensures HasRecord(store.records, store.questions[k].interviewId)
      {
        if k < |before| {
          assert HasRecord(old(store.records), before[k].interviewId);
          var i :| 0 <= i < |old(store.records)| && old(store.records)[i].id == before[k].interviewId;
          assert store.records[i] == old(store.records)[i];
          assert store.questions[k] == before[k];
        } else {
          assert store.questions[k] == rows[k - |before|];
          assert store.records[last].id == store.questions[k].interviewId;
        }
      }
      SavedQuestionsReadBack(before, id, qas);
    }
  }
}
