/**
 * The interview screen's state machine (`InterviewScreenViewModel`).  The
 * screen state is the immutable `InterviewUiState`, replaced by a modified
 * copy on every step; the transitions are the pure functions below and the
 * class `InterviewScreenViewModel` applies them to its fields.  Each
 * coroutine the view model launches is split into a `Begin`/`Complete` pair
 * of methods, the completion taking the API's answer as an input.
 */
module Session {
  import opened Text
  import opened Model
  import opened Repository

  datatype InterviewUiState = InterviewUiState(
    isLoading: bool,
    error: Option<string>,
    currentQuestionIndex: int,
    totalQuestions: int,
    isEvaluating: bool,
    evaluation: Option<InterviewEvaluation>,
    currentAnswer: string,
    answers: seq<string>,
    isInterviewCompleted: bool)

  const UnknownError: string := "Unknown error occurred"
  const IncompleteInterview: string := "Please answer all questions before completing the interview"
  const EvaluationFailedMessage: string := "Evaluation failed"

  /** The state a new screen starts in: every field at its default. */
  function Initial(): InterviewUiState {
    InterviewUiState(false, None, 0, 0, false, None, "", [], false)
  }

  /** The screen state agrees with the question list: one answer slot per
      question, and the index on a question when there is one. */
  predicate Consistent(s: InterviewUiState, questions: seq<string>) {
    |s.answers| == s.totalQuestions == |questions|
    && (if s.totalQuestions > 0 then 0 <= s.currentQuestionIndex < s.totalQuestions
        else s.currentQuestionIndex == 0)
  }

  /** The index names an answer slot, so `saveCurrentAnswer` and the moves
      after it do not index out of bounds. */
  predicate OnQuestion(s: InterviewUiState) {
    0 <= s.currentQuestionIndex < |s.answers| == s.totalQuestions
  }

  lemma InitialValid()
    ensures Consistent(Initial(), [])
    ensures Initial().answers == [] && Initial().error.None? && !Initial().isLoading
  {
  }

  // ---------------------------------------------------------------------------
  // Question generation

  function GenerationStarted(s: InterviewUiState): InterviewUiState {
    s.(isLoading := true, error := None)
  }

  /** `List(n) { "" }` */
  function EmptyAnswers(n: nat): (r: seq<string>)
    ensures |r| == n && forall i :: 0 <= i < n ==> r[i] == ""
  {
    seq(n, _ => "")
  }

  function GenerationSucceeded(s: InterviewUiState, questions: seq<string>): InterviewUiState {
    s.(isLoading := false, currentQuestionIndex := 0, totalQuestions := |questions|,
       answers := EmptyAnswers(|questions|))
  }

  function GenerationFailed(s: InterviewUiState, message: Option<string>): InterviewUiState {
    s.(isLoading := false, error := Some(match message case Some(m) => m case None => UnknownError))
  }

  /** The end of the generation coroutine, given the repository's result. */
  function GenerationFinished(s: InterviewUiState, result: Outcome<seq<string>>): InterviewUiState {
    match result
    case Success(qs) => GenerationSucceeded(s, qs)
    case Failure(m) => GenerationFailed(s, m)
  }

  /** The generation coroutine from start to finish, given what the API
      call came to. */
  function Generation(s: InterviewUiState, call: ApiCall): InterviewUiState {
    GenerationFinished(GenerationStarted(s), GenerateQuestions(call))
  }

  /** A successful generation puts the screen on the first question with one
      empty answer per question, whatever state it started from, and leaves
      the text field and the error as they were. */
  lemma GenerationSuccessResets(s: InterviewUiState, qs: seq<string>)
    ensures var r := GenerationSucceeded(GenerationStarted(s), qs);
      Consistent(r, qs) && !r.isLoading && r.currentQuestionIndex == 0
      && (forall i :: 0 <= i < |r.answers| ==> r.answers[i] == "")
      && r.currentAnswer == s.currentAnswer && r.error.None?
      && r.isEvaluating == s.isEvaluating && r.evaluation == s.evaluation
  {
  }

  /** A failed generation stops loading, reports an error message (the
      exception's own when it has one) and keeps the session. */
  lemma GenerationFailureReports(s: InterviewUiState, m: Option<string>, questions: seq<string>)
    requires Consistent(s, questions)
    ensures var r := GenerationFailed(GenerationStarted(s), m);
      Consistent(r, questions) && !r.isLoading && r.error.Some?
      && (m.Some? ==> r.error == m) && (m.None? ==> r.error == Some(UnknownError))
      && r.answers == s.answers && r.currentQuestionIndex == s.currentQuestionIndex
  {
  }

  /** The whole generation step: success exactly when the response was
      successful and had a body, and then the new question list is the
      parsed reply. */
  lemma GenerationOutcome(s: InterviewUiState, call: ApiCall)
    ensures var r := Generation(s, call);
      !r.isLoading
      && (r.error.None? <==> call.Responded? && call.response.isSuccessful && call.response.body.Some?)
      && (r.error.None? ==> Consistent(r, GenerateQuestions(call).value))
  {
  }

  // ---------------------------------------------------------------------------
  // Answering and navigating

  function UpdateAnswer(s: InterviewUiState, answer: string): InterviewUiState {
    s.(currentAnswer := answer)
  }

  /** `saveCurrentAnswer`: the text field goes into the current slot and is
      cleared; no other slot changes. */
  function SaveAnswer(s: InterviewUiState): (r: InterviewUiState)
    requires 0 <= s.currentQuestionIndex < |s.answers|
    ensures |r.answers| == |s.answers| && r.currentAnswer == ""
    ensures r.answers[s.currentQuestionIndex] == s.currentAnswer
    ensures forall i :: 0 <= i < |s.answers| && i != s.currentQuestionIndex ==> r.answers[i] == s.answers[i]
    ensures r.(answers := s.answers, currentAnswer := s.currentAnswer) == s
  {
    s.(answers := s.answers[s.currentQuestionIndex := s.currentAnswer], currentAnswer := "")
  }

  /** Put the screen on question `j` with its saved answer in the field. */
  function MoveTo(s: InterviewUiState, j: int): InterviewUiState
    requires 0 <= j < |s.answers|
  {
    s.(currentQuestionIndex := j, currentAnswer := s.answers[j])
  }

  /** The completeness test: no questions, or some blank answer. */
  function AnyBlank(answers: seq<string>): (r: bool)
    ensures r <==> exists i :: 0 <= i < |answers| && IsBlank(answers[i])
    decreases |answers|
  {
    if answers == [] then false
    else if IsBlank(answers[0]) then true
    else
      var r := AnyBlank(answers[1..]);
      assert forall i :: 1 <= i < |answers| ==> answers[i] == answers[1..][i - 1];
      r
  }

  predicate Blocked(s: InterviewUiState, questions: seq<string>) {
    |questions| == 0 || AnyBlank(s.answers)
  }

  /** The synchronous part of `completeInterview`. */
  function Completion(s: InterviewUiState, questions: seq<string>): InterviewUiState {
    if Blocked(s, questions) then s.(error := Some(IncompleteInterview))
    else s.(isInterviewCompleted := true, isEvaluating := true, error := None)
  }

  /** `nextQuestion`: save, then the next question, or completion at the last. */
  function NextState(s: InterviewUiState, questions: seq<string>): InterviewUiState
    requires OnQuestion(s)
  {
    var t := SaveAnswer(s);
    if t.currentQuestionIndex < t.totalQuestions - 1 then MoveTo(t, t.currentQuestionIndex + 1)
    else Completion(t, questions)
  }

  /** `previousQuestion`: save, then the previous question if there is one. */
  function PreviousState(s: InterviewUiState): InterviewUiState
    requires OnQuestion(s)
  {
    var t := SaveAnswer(s);
    if t.currentQuestionIndex > 0 then MoveTo(t, t.currentQuestionIndex - 1) else t
  }

  /** Text from the keyboard and from speech recognition goes through the
      same update: the last write wins and nothing but the field changes. */
  lemma LastWriteWins(s: InterviewUiState, typed: string, spoken: string)
    ensures UpdateAnswer(UpdateAnswer(s, typed), spoken) == UpdateAnswer(s, spoken)
    ensures UpdateAnswer(s, spoken).currentAnswer == spoken
    ensures UpdateAnswer(s, spoken).(currentAnswer := s.currentAnswer) == s
  {
  }

  /** Below the last question, `nextQuestion` moves one forward and shows
      the answer saved there; at the last it completes. */
  lemma NextQuestionMoves(s: InterviewUiState, questions: seq<string>)
    requires OnQuestion(s)
    ensures var i, r := s.currentQuestionIndex, NextState(s, questions);
      |r.answers| == |s.answers| && r.answers[i] == s.currentAnswer
      && (i < s.totalQuestions - 1 ==>
            r.currentQuestionIndex == i + 1 && r.currentAnswer == s.answers[i + 1]
            && r.error == s.error && r.isInterviewCompleted == s.isInterviewCompleted)
      && (i == s.totalQuestions - 1 ==>
            r.currentQuestionIndex == i && r.currentAnswer == ""
            && r == Completion(SaveAnswer(s), questions))
  {
  }

  /** Above the first question, `previousQuestion` moves one back and shows
      the answer saved there; at the first it only saves and clears. */
  lemma PreviousQuestionMoves(s: InterviewUiState)
    requires OnQuestion(s)
    ensures var i, r := s.currentQuestionIndex, PreviousState(s);
      |r.answers| == |s.answers| && r.answers[i] == s.currentAnswer
      && (i > 0 ==> r.currentQuestionIndex == i - 1 && r.currentAnswer == s.answers[i - 1])
      && (i == 0 ==> r == SaveAnswer(s) && r.currentQuestionIndex == 0 && r.currentAnswer == "")
  {
  }

  /** Moving around keeps one slot per question and the index on a question. */
  lemma NavigationKeepsValid(s: InterviewUiState, questions: seq<string>)
    requires Consistent(s, questions) && s.totalQuestions > 0
    ensures OnQuestion(s)
    ensures Consistent(NextState(s, questions), questions)
    ensures Consistent(PreviousState(s), questions)
  {
  }

  /** Typing `a` on a question before the last, going forward and coming
      back shows `a` again, saved in its slot. */
  lemma NextThenPreviousRestores(s: InterviewUiState, questions: seq<string>, a: string)
    requires OnQuestion(s) && s.currentQuestionIndex < s.totalQuestions - 1
    ensures var u := UpdateAnswer(s, a);
      var r := PreviousState(NextState(u, questions));
      r.currentQuestionIndex == s.currentQuestionIndex && r.currentAnswer == a
      && r.answers[s.currentQuestionIndex] == a
      && (forall i :: 0 <= i < |s.answers| && i != s.currentQuestionIndex + 1 ==>
            r.answers[i] == (if i == s.currentQuestionIndex then a else s.answers[i]))
  {
    var u := UpdateAnswer(s, a);
    var n := NextState(u, questions);
    assert n.currentQuestionIndex == s.currentQuestionIndex + 1;
    assert n.currentAnswer == s.answers[s.currentQuestionIndex + 1];
  }

  // ---------------------------------------------------------------------------
  // Completion and evaluation

  /** Completion starts the evaluation exactly when there are questions and
      every answer has a non-blank character; otherwise it only sets the
      error, leaving index, flags and the evaluation as they were. */
  lemma CompletionIff(s: InterviewUiState, questions: seq<string>)
    ensures var r := Completion(s, questions);
      (r.error.None? <==> |questions| > 0 && forall i :: 0 <= i < |s.answers| ==> !IsBlank(s.answers[i]))
      && (r.error.None? ==> r.isInterviewCompleted && r.isEvaluating)
      && (r.error.Some? ==> r == s.(error := Some(IncompleteInterview)))
  {
  }

  /** Straight after generation every answer is empty, so finishing is
      refused until something is typed. */
  lemma FreshSessionCannotComplete(s: InterviewUiState, qs: seq<string>)
    ensures Completion(GenerationSucceeded(s, qs), qs).error == Some(IncompleteInterview)
  {
    if |qs| > 0 {
      assert IsBlank(GenerationSucceeded(s, qs).answers[0]);
    }
  }

  function EvaluationSucceeded(s: InterviewUiState, e: InterviewEvaluation): InterviewUiState {
    s.(isEvaluating := false, evaluation := Some(e))
  }

  function EvaluationFailed(s: InterviewUiState, message: Option<string>): InterviewUiState {
    s.(isEvaluating := false, error := Some(match message case Some(m) => m case None => EvaluationFailedMessage))
  }

  /** The end of the evaluation coroutine, given the repository's result. */
  function EvaluationFinished(s: InterviewUiState, result: Outcome<InterviewEvaluation>): InterviewUiState {
    match result
    case Success(e) => EvaluationSucceeded(s, e)
    case Failure(m) => EvaluationFailed(s, m)
  }

  /** The evaluation coroutine's ending, given what the API call came to. */
  function Evaluation(s: InterviewUiState, call: ApiCall): InterviewUiState {
    EvaluationFinished(s, EvaluateAnswers(call))
  }

  /** Evaluating always ends the spinner; it shows an evaluation exactly
      when the call succeeded, and then the one parsed from the reply. */
  lemma EvaluationOutcome(s: InterviewUiState, call: ApiCall, questions: seq<string>)
    requires Consistent(s, questions)
    ensures var r := Evaluation(s, call);
      Consistent(r, questions) && !r.isEvaluating && r.answers == s.answers
      && (EvaluateAnswers(call).Success? ==> r.evaluation == Some(EvaluateAnswers(call).value) && r.error == s.error)
      && (EvaluateAnswers(call).Failure? ==> r.evaluation == s.evaluation && r.error.Some?)
  {
  }

  /** `questions.mapIndexed { i, q -> QuestionAnswer(q, answers[i]) }` */
  function Pairs(questions: seq<string>, answers: seq<string>): (r: seq<QuestionAnswer>)
    requires |questions| <= |answers|
    ensures |r| == |questions|
    ensures forall i :: 0 <= i < |questions| ==> r[i] == QuestionAnswer(questions[i], answers[i])
  {
    seq(|questions|, i requires 0 <= i < |questions| => QuestionAnswer(questions[i], answers[i]))
  }

  // ---------------------------------------------------------------------------
  // Voice input

  /** The recogniser's error codes as the screen tells them apart: the four
      codes it names, and `OtherError` for every code other than those four. */
  datatype SpeechError = NoMatch | SpeechTimeout | Audio | InsufficientPermissions | OtherError

  /** The message shown for a recogniser error. */
  function RecordingErrorMessage(e: SpeechError): (r: string)
    ensures r != []
    ensures e.OtherError? <==> r == "An error occurred. Please try again."
    ensures (e == NoMatch || e == SpeechTimeout) <==> StartsWith(r, "No sound detected.")
  {
    match e
    case NoMatch => "No sound detected. Please try again."
    case SpeechTimeout => "No sound detected. Time expired."
    case Audio =>
      var m := "Error occurred while recording sound.";
      assert m[0] == 'E';
      m
    case InsufficientPermissions =>
      var m := "Microphone permission is required.";
      assert m[0] == 'M';
      m
    case OtherError =>
      var m := "An error occurred. Please try again.";
      assert m[0] == 'A';
      m
  }

  // ---------------------------------------------------------------------------
  // The view model

  /** An evaluation in flight: the configuration and the pairs it captured. */
  datatype PendingEvaluation = PendingEvaluation(config: InterviewConfig, pairs: seq<QuestionAnswer>)

  class InterviewScreenViewModel {
    var uiState: InterviewUiState
    var questions: seq<string>
    var interviewConfig: Option<InterviewConfig>
    var isRecording: bool
    var recordingError: Option<string>
    /** Generation coroutines started and not yet finished. */
    var pendingGenerations: nat
    /** Evaluation coroutines started and not yet finished. */
    var pendingEvaluations: seq<PendingEvaluation>
    /** The repository's local store. */
    const store: InterviewStore

    ghost predicate Valid()
      reads this, store
    {
      Consistent(uiState, questions) && store.Valid()
    }

    constructor(store: InterviewStore)
      requires store.Valid()
      ensures Valid() && this.store == store
      ensures uiState == Initial() && questions == [] && interviewConfig.None?
      ensures !isRecording && recordingError.None?
      ensures pendingGenerations == 0 && pendingEvaluations == []
    {
      uiState := Initial();
      questions := [];
      interviewConfig := None;
      isRecording := false;
      recordingError := None;
      pendingGenerations := 0;
      pendingEvaluations := [];
      this.store := store;
    }

    /** `generateQuestions(config)` up to the API call. */
    method GenerateQuestions(config: InterviewConfig)
      requires Valid()
      modifies this
      ensures Valid()
      ensures interviewConfig == Some(config) && uiState == GenerationStarted(old(uiState))
      ensures pendingGenerations == old(pendingGenerations) + 1
      ensures questions == old(questions) && pendingEvaluations == old(pendingEvaluations)
      ensures isRecording == old(isRecording) && recordingError == old(recordingError)
    {
      interviewConfig := Some(config);
      uiState := GenerationStarted(uiState);
      pendingGenerations := pendingGenerations + 1;
    }

    /** The rest of a generation coroutine, once the repository has answered
        (with `Repository.GenerateQuestions` of the API call's result). */
    method CompleteGeneration(result: Outcome<seq<string>>)
      requires Valid() && pendingGenerations > 0
      modifies this
      ensures Valid()
      ensures pendingGenerations == old(pendingGenerations) - 1
      ensures uiState == GenerationFinished(old(uiState), result)
      ensures questions == (if result.Success? then result.value else old(questions))
      ensures interviewConfig == old(interviewConfig) && pendingEvaluations == old(pendingEvaluations)
      ensures isRecording == old(isRecording) && recordingError == old(recordingError)
    {
      pendingGenerations := pendingGenerations - 1;
      match result
      case Success(qs) =>
        questions := qs;
        uiState := GenerationSucceeded(uiState, qs);
      case Failure(m) =>
        uiState := GenerationFailed(uiState, m);
    }

    /** `retryGeneration(config)`: generation once more. */
    method RetryGeneration(config: InterviewConfig)
      requires Valid()
      modifies this
      ensures Valid()
      ensures interviewConfig == Some(config) && uiState == GenerationStarted(old(uiState))
      ensures pendingGenerations == old(pendingGenerations) + 1
      ensures questions == old(questions) && pendingEvaluations == old(pendingEvaluations)
      ensures isRecording == old(isRecording) && recordingError == old(recordingError)
    {
      GenerateQuestions(config);
    }

    method UpdateCurrentAnswer(answer: string)
      requires Valid()
      modifies this
      ensures Valid()
      ensures uiState == UpdateAnswer(old(uiState), answer)
      ensures questions == old(questions) && interviewConfig == old(interviewConfig)
      ensures pendingGenerations == old(pendingGenerations) && pendingEvaluations == old(pendingEvaluations)
      ensures isRecording == old(isRecording) && recordingError == old(recordingError)
    {
      uiState := UpdateAnswer(uiState, answer);
    }

    method SaveCurrentAnswer()
      requires Valid() && OnQuestion(uiState)
      modifies this
      ensures Valid() && OnQuestion(uiState)
      ensures uiState == SaveAnswer(old(uiState))
      ensures questions == old(questions) && interviewConfig == old(interviewConfig)
      ensures pendingGenerations == old(pendingGenerations) && pendingEvaluations == old(pendingEvaluations)
      ensures isRecording == old(isRecording) && recordingError == old(recordingError)
    {
      uiState := SaveAnswer(uiState);
    }

    /** The evaluation that `completeInterview` starts, if it starts one:
        when the answers are complete and a configuration was chosen. */
    function Started(s: InterviewUiState): (r: seq<PendingEvaluation>)
      reads this
      requires |questions| <= |s.answers|
      ensures |r| <= 1
      ensures |r| == 1 <==> !Blocked(s, questions) && interviewConfig.Some?
      ensures |r| == 1 ==> r[0].config == interviewConfig.value && r[0].pairs == Pairs(questions, s.answers)
    {
      if !Blocked(s, questions) && interviewConfig.Some? then
        [PendingEvaluation(interviewConfig.value, Pairs(questions, s.answers))]
      else []
    }

    /** `completeInterview` up to the API call. */
    method CompleteInterview()
      requires Valid()
      modifies this
      ensures Valid()
      ensures uiState == Completion(old(uiState), questions)
      ensures pendingEvaluations == old(pendingEvaluations) + old(Started(uiState))
      ensures questions == old(questions) && interviewConfig == old(interviewConfig)
      ensures pendingGenerations == old(pendingGenerations)
      ensures isRecording == old(isRecording) && recordingError == old(recordingError)
    {
      var s := uiState;
      var started := Started(s);
      if Blocked(s, questions) {
        uiState := s.(error := Some(IncompleteInterview));
        return;
      }
      uiState := s.(isInterviewCompleted := true, isEvaluating := true, error := None);
      pendingEvaluations := pendingEvaluations + started;
    }

    method NextQuestion()
      requires Valid() && OnQuestion(uiState)
      modifies this
      ensures Valid()
      ensures uiState == NextState(old(uiState), questions)
      ensures var t := SaveAnswer(old(uiState));
        pendingEvaluations == old(pendingEvaluations)
          + (if t.currentQuestionIndex < t.totalQuestions - 1 then [] else old(Started(t)))
      ensures questions == old(questions) && interviewConfig == old(interviewConfig)
      ensures pendingGenerations == old(pendingGenerations)
      ensures isRecording == old(isRecording) && recordingError == old(recordingError)
    {
      SaveCurrentAnswer();
      var s := uiState;
      if s.currentQuestionIndex < s.totalQuestions - 1 {
        uiState := s.(currentQuestionIndex := s.currentQuestionIndex + 1,
                      currentAnswer := s.answers[s.currentQuestionIndex + 1]);
      } else {
        CompleteInterview();
      }
    }

    method PreviousQuestion()
      requires Valid() && OnQuestion(uiState)
      modifies this
      ensures Valid() && OnQuestion(uiState)
      ensures uiState == PreviousState(old(uiState))
      ensures questions == old(questions) && interviewConfig == old(interviewConfig)
      ensures pendingGenerations == old(pendingGenerations) && pendingEvaluations == old(pendingEvaluations)
      ensures isRecording == old(isRecording) && recordingError == old(recordingError)
    {
      SaveCurrentAnswer();
      var s := uiState;
      if s.currentQuestionIndex > 0 {
        uiState := s.(currentQuestionIndex := s.currentQuestionIndex - 1,
                      currentAnswer := s.answers[s.currentQuestionIndex - 1]);
      }
    }

    /** The rest of evaluation coroutine `k`, once the repository has
        answered (with `Repository.EvaluateAnswers` of the API call's result);
        `date` stands for the clock reading taken when the record is saved.
        A success stores the record and its question rows before showing
        the evaluation; a failure stores nothing. */
    method CompleteEvaluation(k: nat, result: Outcome<InterviewEvaluation>, date: int)
      requires Valid() && k < |pendingEvaluations|
      modifies this, store
      ensures Valid()
      ensures uiState == EvaluationFinished(old(uiState), result)
      ensures pendingEvaluations == old(pendingEvaluations[..k] + pendingEvaluations[k + 1..])
      ensures var p, id := old(pendingEvaluations[k]), old(store.nextId);
        match result
        case Success(e) =>
          store.records == old(store.records) + [RecordOf(p.config, e, date, id)]
          && store.questions == old(store.questions) + QuestionEntities(id, p.pairs)
          && store.nextId == id + 1
        case Failure(_) =>
          store.records == old(store.records) && store.questions == old(store.questions)
          && store.nextId == id
      ensures questions == old(questions) && interviewConfig == old(interviewConfig)
      ensures pendingGenerations == old(pendingGenerations)
      ensures isRecording == old(isRecording) && recordingError == old(recordingError)
    {
      var p := pendingEvaluations[k];
      pendingEvaluations := pendingEvaluations[..k] + pendingEvaluations[k + 1..];
      match result
      case Success(e) =>
        SaveInterviewRecord(store, p.config, p.pairs, e, date);
        uiState := EvaluationSucceeded(uiState, e);
      case Failure(m) =>
        uiState := EvaluationFailed(uiState, m);
    }

    // Voice input: the recogniser's callbacks.

    method StartVoiceInput()
      requires Valid()
      modifies this
      ensures Valid() && isRecording && recordingError.None?
      ensures uiState == old(uiState) && questions == old(questions) && interviewConfig == old(interviewConfig)
      ensures pendingGenerations == old(pendingGenerations) && pendingEvaluations == old(pendingEvaluations)
    {
      isRecording := true;
      recordingError := None;
    }

    /** A recognised phrase replaces the text field, as typing does. */
    method OnSpeechResult(text: string)
      requires Valid()
      modifies this
      ensures Valid()
      ensures uiState == UpdateAnswer(old(uiState), text)
      ensures questions == old(questions) && interviewConfig == old(interviewConfig)
      ensures pendingGenerations == old(pendingGenerations) && pendingEvaluations == old(pendingEvaluations)
      ensures isRecording == old(isRecording) && recordingError == old(recordingError)
    {
      UpdateCurrentAnswer(text);
    }

    method OnSpeechError(e: SpeechError)
      requires Valid()
      modifies this
      ensures Valid() && !isRecording && recordingError == Some(RecordingErrorMessage(e))
      ensures uiState == old(uiState) && questions == old(questions) && interviewConfig == old(interviewConfig)
      ensures pendingGenerations == old(pendingGenerations) && pendingEvaluations == old(pendingEvaluations)
    {
      isRecording := false;
      recordingError := Some(RecordingErrorMessage(e));
    }

    method OnReadyForSpeech()
      requires Valid()
      modifies this
      ensures Valid() && recordingError.None? && isRecording == old(isRecording)
      ensures uiState == old(uiState) && questions == old(questions) && interviewConfig == old(interviewConfig)
      ensures pendingGenerations == old(pendingGenerations) && pendingEvaluations == old(pendingEvaluations)
    {
      recordingError := None;
    }

    method OnEndOfSpeech()
      requires Valid()
      modifies this
      ensures Valid() && !isRecording && recordingError == old(recordingError)
      ensures uiState == old(uiState) && questions == old(questions) && interviewConfig == old(interviewConfig)
      ensures pendingGenerations == old(pendingGenerations) && pendingEvaluations == old(pendingEvaluations)
    {
      isRecording := false;
    }

    method StopVoiceInput()
      requires Valid()
      modifies this
      ensures Valid() && !isRecording && recordingError == old(recordingError)
      ensures uiState == old(uiState) && questions == old(questions) && interviewConfig == old(interviewConfig)
      ensures pendingGenerations == old(pendingGenerations) && pendingEvaluations == old(pendingEvaluations)
    {
      isRecording := false;
    }
  }
}
